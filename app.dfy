/**
 * The application shell: the form definition under edit, the in-memory draft
 * snapshot, the published snapshot that locks the builder, the selected field and
 * the preview dialog flag.
 *
 * While a published snapshot exists the builder is locked: the canvas is shown the
 * published fields and its setters do nothing, and the widget palette and the
 * properties panel are not rendered.
 */
module BuilderApp {
  import opened Wrappers
  import opened Schema

  datatype AppState = AppState(
    fields: seq<Node>,
    draft: Option<seq<Node>>,
    published: Option<seq<Node>>,
    selected: Option<string>,
    showPreview: bool)

  /** `isLocked = !!publishedFields`: any array, even an empty one, is truthy. */
  predicate Locked(s: AppState) {
    s.published.Some?
  }

  /**
   * What the shell keeps true: a locked builder still holds the published fields and
   * has no selection, and neither snapshot is an empty form.
   */
  ghost predicate Valid(s: AppState) {
    (Locked(s) ==> s.fields == s.published.value && s.selected.None? && |s.fields| > 0) &&
    (s.draft.Some? ==> |s.draft.value| > 0)
  }

  /** The state the app starts in: an empty form, no snapshots, no selection. */
  function Initial(): (s: AppState)
    ensures Valid(s) && !Locked(s) && |s.fields| == 0
  {
    AppState([], None, None, None, false)
  }

  // ---------------------------------------------------------------------------
  // The handlers

  /** `handleSave`: the current fields become the draft. */
  function Saved(s: AppState): AppState {
    s.(draft := Some(s.fields))
  }

  /** `handlePublish`: the current fields become the published snapshot and the selection is cleared. */
  function Published(s: AppState): AppState {
    s.(published := Some(s.fields), selected := None)
  }

  /** `handleUnpublish` */
  function Unpublished(s: AppState): AppState {
    s.(published := None)
  }

  /** `handleRestoreDraft`: the draft replaces the fields when there is one. */
  function Restored(s: AppState): AppState {
    if s.draft.Some? then s.(fields := s.draft.value) else s
  }

  /** The canvas's `setFields`: the real setter, or a function that does nothing while locked. */
  function BuilderSetFields(s: AppState, newFields: seq<Node>): AppState {
    if Locked(s) then s else s.(fields := newFields)
  }

  /** The canvas's `setSelectedFieldId`, likewise disabled while locked. */
  function BuilderSelect(s: AppState, id: Option<string>): AppState {
    if Locked(s) then s else s.(selected := id)
  }

  /** The fields the canvas is given: the published snapshot while locked, the fields otherwise. */
  function CanvasFields(s: AppState): seq<Node> {
    if s.published.Some? then s.published.value else s.fields
  }

  // ---------------------------------------------------------------------------
  // The controls

  /** Every control of the shell and of the components it hands setters to. */
  datatype Action =
    | Save
    | Publish
    | Unpublish
    | Restore
    | CanvasEdit(newFields: seq<Node>)
    | CanvasSelect(id: Option<string>)
    | PanelEdit(newFields: seq<Node>)
    | PanelSelect(id: Option<string>)
    | OpenPreview
    | ClosePreview

  /**
   * Which controls the page renders enabled: Publish and Save only while unlocked and
   * with at least one field, Preview only with at least one field, Unpublish only
   * while locked, Restore only while unlocked with a draft, the properties panel only
   * while unlocked. The canvas is always rendered.
   */
  predicate Available(s: AppState, a: Action) {
    match a
    case Save => !Locked(s) && |s.fields| > 0
    case Publish => !Locked(s) && |s.fields| > 0
    case Unpublish => Locked(s)
    case Restore => !Locked(s) && s.draft.Some?
    case CanvasEdit(_) => true
    case CanvasSelect(_) => true
    case PanelEdit(_) => !Locked(s)
    case PanelSelect(_) => !Locked(s)
    case OpenPreview => |s.fields| > 0
    case ClosePreview => s.showPreview
  }

  /** The state after a control is used. */
  function Step(s: AppState, a: Action): AppState {
    match a
    case Save => Saved(s)
    case Publish => Published(s)
    case Unpublish => Unpublished(s)
    case Restore => Restored(s)
    case CanvasEdit(f) => BuilderSetFields(s, f)
    case CanvasSelect(id) => BuilderSelect(s, id)
    case PanelEdit(f) => s.(fields := f)
    case PanelSelect(id) => s.(selected := id)
    case OpenPreview => s.(showPreview := true)
    case ClosePreview => s.(showPreview := false)
  }

  /** A sequence of controls used one after the other. */
  function Run(s: AppState, acts: seq<Action>): AppState
    decreases |acts|
  {
    if |acts| == 0 then s else Run(Step(s, acts[0]), acts[1..])
  }

  // ---------------------------------------------------------------------------
  // Properties

  /** Every enabled control keeps the shell valid. */
  lemma StepKeepsValid(s: AppState, a: Action)
    requires Valid(s) && Available(s, a)
    ensures Valid(Step(s, a))
  {
  }

  /** Publishing locks the builder on the current fields with no selection; unpublishing unlocks it. */
  lemma PublishLocks(s: AppState)
    ensures Locked(Published(s)) && CanvasFields(Published(s)) == s.fields && Published(s).selected.None?
    ensures !Locked(Unpublished(s)) && Unpublished(s).fields == s.fields
    ensures !Locked(s) ==> Unpublished(Published(s)) == s.(selected := None)
  {
  }

  /** Saving changes nothing but the draft. */
  lemma SaveOnlySnapshots(s: AppState)
    ensures Saved(s).draft == Some(s.fields)
    ensures Saved(s).(draft := s.draft) == s
  {
  }

  /** Restoring without a draft does nothing; with one, only the fields change. */
  lemma RestoreNeedsDraft(s: AppState)
    ensures s.draft.None? ==> Restored(s) == s
    ensures s.draft.Some? ==> Restored(s).fields == s.draft.value && Restored(s).(fields := s.fields) == s
  {
  }

  /** While locked, the canvas's setters do nothing. */
  lemma LockedCanvasIsInert(s: AppState, f: seq<Node>, id: Option<string>)
    requires Locked(s)
    ensures Step(s, CanvasEdit(f)) == s && Step(s, CanvasSelect(id)) == s
  {
  }

  /** In a valid state the canvas and the preview are shown the same fields. */
  lemma CanvasShowsFields(s: AppState)
    requires Valid(s)
    ensures CanvasFields(s) == s.fields
  {
  }

  /**
   * While locked, nothing the page offers changes the fields or the selection:
   * only Unpublish ends the lock.
   */
  lemma LockedFreezesForm(s: AppState, a: Action)
    requires Valid(s) && Locked(s) && Available(s, a)
    ensures Step(s, a).fields == s.fields && Step(s, a).selected == s.selected
    ensures Locked(Step(s, a)) <==> !a.Unpublish?
  {
  }

  /** Only Save touches the draft. */
  lemma {:induction false} RunKeepsDraft(s: AppState, acts: seq<Action>)
    requires forall k :: 0 <= k < |acts| ==> !acts[k].Save?
    ensures Run(s, acts).draft == s.draft
    decreases |acts|
  {
    if |acts| > 0 {
      RunKeepsDraft(Step(s, acts[0]), acts[1..]);
    }
  }

  /** A run of enabled controls from a valid state ends in a valid state. */
  ghost predicate AllAvailable(s: AppState, acts: seq<Action>)
    decreases |acts|
  {
    |acts| == 0 || (Available(s, acts[0]) && AllAvailable(Step(s, acts[0]), acts[1..]))
  }

  lemma {:induction false} RunKeepsValid(s: AppState, acts: seq<Action>)
    requires Valid(s) && AllAvailable(s, acts)
    ensures Valid(Run(s, acts))
    decreases |acts|
  {
    if |acts| > 0 {
      StepKeepsValid(s, acts[0]);
      RunKeepsValid(Step(s, acts[0]), acts[1..]);
    }
  }

  /** Save, then any edits without saving again, then Restore: the saved fields are back. */
  lemma SaveEditRestore(s: AppState, acts: seq<Action>)
    requires forall k :: 0 <= k < |acts| ==> !acts[k].Save?
    ensures Restored(Run(Saved(s), acts)).fields == s.fields
  {
    RunKeepsDraft(Saved(s), acts);
  }

  // ---------------------------------------------------------------------------
  // The component

  class App {
    var fields: seq<Node>
    var draftFields: Option<seq<Node>>
    var publishedFields: Option<seq<Node>>
    var selectedFieldId: Option<string>
    var showPreview: bool

    function State(): AppState
      reads this
    {
      AppState(fields, draftFields, publishedFields, selectedFieldId, showPreview)
    }

    /** `isLocked` */
    predicate IsLocked()
      reads this
      ensures IsLocked() <==> Locked(State())
    {
      publishedFields != None
    }

    constructor()
      ensures State() == Initial()
    {
      fields := [];
      draftFields := None;
      publishedFields := None;
      selectedFieldId := None;
      showPreview := false;
    }

    method HandleSave()
      modifies this
      ensures State() == Saved(old(State()))
    {
      draftFields := Some(fields);
    }

    method HandlePublish()
      modifies this
      ensures State() == Published(old(State()))
    {
      publishedFields := Some(fields);
      selectedFieldId := None;
    }

    method HandleUnpublish()
      modifies this
      ensures State() == Unpublished(old(State()))
    {
      publishedFields := None;
    }

    method HandleRestoreDraft()
      modifies this
      ensures State() == Restored(old(State()))
    {
      if draftFields.Some? {
        fields := draftFields.value;
      }
    }

    /** The `setFields` handed to the canvas. */
    method CanvasSetFields(newFields: seq<Node>)
      modifies this
      ensures State() == BuilderSetFields(old(State()), newFields)
    {
      if !IsLocked() {
        fields := newFields;
      }
    }

    /** The `setSelectedFieldId` handed to the canvas. */
    method CanvasSetSelected(id: Option<string>)
      modifies this
      ensures State() == BuilderSelect(old(State()), id)
    {
      if !IsLocked() {
        selectedFieldId := id;
      }
    }

    /** A control of the page: enabled controls keep the shell valid. */
    method Dispatch(a: Action)
      requires Valid(State()) && Available(State(), a)
      modifies this
      ensures State() == Step(old(State()), a) && Valid(State())
    {
      StepKeepsValid(State(), a);
      match a
      case Save => HandleSave();
      case Publish => HandlePublish();
      case Unpublish => HandleUnpublish();
      case Restore => HandleRestoreDraft();
      case CanvasEdit(f) => CanvasSetFields(f);
      case CanvasSelect(id) => CanvasSetSelected(id);
      case PanelEdit(f) => fields := f;
      case PanelSelect(id) => selectedFieldId := id;
      case OpenPreview => showPreview := true;
      case ClosePreview => showPreview := false;
    }
  }
}
