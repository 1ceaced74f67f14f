# Form schema engine of the screen builder, in Dafny

The screen builder is a drag-and-drop form designer written in React. A form is a list of sections, each holding fields. Each field may carry:

- a visibility dependency on a sibling field;
- a static option list, or an API configuration that fetches its options;
- validation rules.

The builder has an app shell that can save a draft of the form and publish it. Publishing locks the builder.

This project models the logic buried in the components and proves properties of it. The network, uuid generation and the regular-expression engine become parameters.

The modules, in dependency order:

- `Wrappers` (`wrappers.dfy`): `Option`.
- `JsValues` (`js_values.dfy`): a JSON-like `Value`, and the JavaScript operators the engine relies on: truthiness, `??`, `||`, property access, `String(..)` and `split`.
- `Schema` (`schema.dfy`): the node of a form definition (a field, or a section holding `fields`), the API configuration, and the shallow merge `{ ...node, ...updates }`.
- `SchemaTree` (`schema_tree.dfy`): `flattenFields`, `flattenFieldsWithDeps`, `flattenSectionFields`, `findFieldById`, `updateFieldById` and `deleteFieldById`.
- `Visibility` (`visibility.dfy`): both `isFieldVisible` functions. The form preview's has a checkbox branch; the builder canvas's does not.
- `Interpolation` (`interpolation.dfy`): both `interpolateParams` functions (the strict `${id}`/`${id.prop}` grammar and the whole-key grammar), the panel's placeholder blanking, and `interpolateUrl`.
- `Validation` (`validation.dfy`): `validateField`.
- `ApiCalls` (`api_calls.dfy`): the request an API configuration sends, the `responsePath` walk, the mapping of items to options, and the `responseMap` autofill.
- `CheckboxToggle` (`checkbox_toggle.dfy`): the checkbox group's `onChange`.
- `OptionCaching` (`option_cache.dfy`): the options effect of the preview and of the canvas. A class holds the three maps: signatures (`lastApiCallRef`), options and loading flags. A method runs one evaluation pass, and another applies a fetch answer.
- `PreviewFormState` (`preview_form.dfy`): the preview's values, errors and submitted flag, with `handleChange`, `handleSubmit`, "Fill Again", the checkbox and the text-field autofill.
- `BuilderCanvas` (`builder_canvas.dfy`): dropping widgets and sections; `moveField`, `moveSection` (with an in-place array splice) and `updateSection`; and the canvas's own values.
- `DependencyGraph` (`dependency_graph.dfy`): the depth-first `doesFieldDependOn`, the candidate filter of the "Visibility Dependency" select, and the proof that the filter is cycle-safe.
- `PropertiesPanel` (`properties_panel.dfy`): `String.prototype.trim`; the option editors; and a class for the panel's state, with `updateField`, `deleteField`, the option-source switch, `handleParamTextChange`, `handleApiSave` and the dependency select.
- `BuilderApp` (`app.dfy`): the publish/draft state machine of the app shell, as pure transitions and as a class, with the lock invariant kept by every control the page enables.

Code that updates state step by step is modelled as a method: a loop with invariants, or a class whose methods state the whole new state. Each such method is proved against a specification function, and lemmas state the properties of that function. Code built from expressions is modelled as functions and lemmas.

## Model

| member | source | states |
|---|---|---|
| JsValues.SplitJoin | src/components/PropertiesPanel.js:238 | `split(".")` loses nothing: the parts joined with the separator give the path back, and no part contains the separator |
| Schema.Merge | src/components/PropertiesPanel.js:66 | the shallow merge of an update into a node keeps its id, its type and its children, so a merge never turns a field into a section or back |
| SchemaTree.Leaves | src/components/PropertiesPanel.js:8-18 | the flattened fields: a section holding a `fields` array gives its flattened children, any other node itself, in document order; stated by `FlattenFields`, `LeavesAreNotContainers` and `LeavesAreOccurringFields` |
| SchemaTree.FlattenFields | src/components/PropertiesPanel.js:8-18 | the loop of `flattenFields` (the same code as FormBuilder.js:26-36 and PreviewForm.js:84-94) returns exactly the non-section leaves, in depth-first document order |
| SchemaTree.LeavesAreNotContainers | src/components/PropertiesPanel.js:8-18 | no section holding a `fields` array is ever returned by `flattenFields` |
| SchemaTree.LeavesAreOccurringFields | src/components/PropertiesPanel.js:8-18 | a node is among the flattened fields if and only if it occurs somewhere in the tree and is not a section |
| SchemaTree.FlattenFieldsWithDeps | src/components/PropertiesPanel.js:21-31 | the loop returns the leaves paired with the id of their enclosing section |
| SchemaTree.LeavesWithParentTags | src/components/PropertiesPanel.js:21-31 | `flattenFieldsWithDeps` gives the same leaves in the same order as `flattenFields`. Each leaf is tagged with the id of the section that directly holds it, or with the caller's parent (null at the root) when it sits at the top level |
| SchemaTree.FlattenSectionFields | src/components/PreviewForm.js:73-81 | the loop returns the direct children of the top-level sections, concatenated; any other top-level node is dropped |
| SchemaTree.SectionChildrenOfTwoLevelForm | src/components/PreviewForm.js:73-94 | on a form made of sections of plain fields, the two flatten helpers of the preview agree |
| SchemaTree.FindFieldById | src/components/PropertiesPanel.js:54-63 | the loop with early returns answers the first node with the id in depth-first order, sections included, or null |
| SchemaTree.Find | src/components/PropertiesPanel.js:54-63 | `findFieldById`: a node with the id, else the answer found inside a section, else the answer of the rest; stated by `FindFieldById`, `FindSound` and `FindIsFirstInPreorder` |
| SchemaTree.FindIsFirstInPreorder | src/components/PropertiesPanel.js:54-63 | the answer is the first node carrying the id in the depth-first walk over every node, sections included: no node met earlier has the id |
| SchemaTree.FindSound | src/components/PropertiesPanel.js:54-63 | a found node carries the id and occurs in the tree; the answer is null exactly when no node of the tree has the id |
| SchemaTree.UpdateFieldById | src/components/PropertiesPanel.js:64-72 | `updateFieldById`: a node with the id is merged and not descended into, any other section is descended into, any other node is kept; stated by the lemmas below |
| SchemaTree.UpdateKeepsShape | src/components/PropertiesPanel.js:64-72 | `updateFieldById` keeps the array shape: every node keeps its id, its position and its children |
| SchemaTree.UpdateThenFlatten | src/components/PropertiesPanel.js:64-72 | when no section has the id, the flattened result is the flattened input with the updates merged into exactly the leaves that carry the id, and every other leaf unchanged |
| SchemaTree.UpdateLeavesMergedOrKept | src/components/PropertiesPanel.js:64-72 | whatever sections carry the id, each flattened field stays in its place. It is either unchanged or, when it carries the id, merged with the updates. A field below a section with the id is the one left unchanged |
| SchemaTree.FindAfterUpdate | src/components/PropertiesPanel.js:64-72 | after an update, looking up the id finds the node found before, with the updates merged in |
| SchemaTree.FindOtherAfterUpdate | src/components/PropertiesPanel.js:64-72 | an update leaves every other field that a lookup finds unchanged |
| SchemaTree.FindNoneAfterUpdate | src/components/PropertiesPanel.js:64-72 | an update never creates a node with an id that was absent |
| SchemaTree.DeleteFieldById | src/components/PropertiesPanel.js:73-81 | `deleteFieldById`: the nodes with the id are dropped at every depth and the remaining sections are descended into; stated by `FindAfterDelete`, `DeleteLeavesOutside`, `DeleteKeepsExactlyOutside` and `DeleteThenFlatten` |
| SchemaTree.FindAfterDelete | src/components/PropertiesPanel.js:73-81 | after `deleteFieldById`, `findFieldById` answers null for that id at every depth |
| SchemaTree.DeleteThenFlatten | src/components/PropertiesPanel.js:73-81 | when no section has the id, deleting removes from the flattened form exactly the leaves with the id, and keeps all the others in order |
| SchemaTree.LeavesWithAncestorsAreLeaves | src/components/PropertiesPanel.js:8-18 | tagging each flattened field with the ids of its enclosing sections keeps exactly the flattened fields, in order |
| SchemaTree.DeleteLeavesOutside | src/components/PropertiesPanel.js:73-81 | whatever nodes carry the id, a section (as the panel's delete button allows) or fields, the flattened fields after the delete are exactly the old ones, in the old order, whose own id differs and that no section carrying the id encloses |
| SchemaTree.DeleteKeepsExactlyOutside | src/components/PropertiesPanel.js:73-81 | a node is a flattened field after the delete if and only if it was one before, its id differs, and none of its enclosing sections carries the id: the delete removes nothing else |
| SchemaTree.OutsideIdMembers | src/components/PropertiesPanel.js:73-81 | membership in the kept list: an entry survives exactly when its own id and its enclosing section ids all differ from the deleted id |
| Schema.FirstWithId | src/components/PreviewForm.js:49 | `fields.find` answers a sibling with the id, and answers nothing only when no sibling has it |
| Visibility.MatchesBuilder | src/components/FormBuilder.js:18-23 | the canvas's value test. `"*"` needs an object with a key, or a value that is not undefined, `""` or null. An object matches on its `id` or `label`, anything else by strict equality |
| Visibility.MatchesPreview | src/components/PreviewForm.js:53-69 | the preview's value test: as the canvas's, with a checkbox branch after the object test that only a non-object value reaches (`CheckboxBranchNeverShows`) |
| Visibility.IsFieldVisiblePreview | src/components/PreviewForm.js:47-70 | `isFieldVisible` of the preview: shown without a dependency or a target among the siblings, hidden with a hidden target, else the value test; `None` where the source recurses forever. Stated by the lemmas below |
| Visibility.IsFieldVisibleBuilder | src/components/FormBuilder.js:11-24 | `isFieldVisible` of the canvas, the same recursion with the canvas's value test |
| Visibility.FailOpen | src/components/PreviewForm.js:47-50 | in both variants, a field without a dependency is shown, and so is one whose target is not among its siblings |
| Visibility.HiddenTargetHidesPreview | src/components/PreviewForm.js:51 | in the preview, a target the preview hides hides every field that depends on it, whatever the values hold; this covers a checkbox target the preview hides and the canvas shows |
| Visibility.HiddenTargetHidesBuilder | src/components/FormBuilder.js:15 | on the canvas, a target the canvas hides hides every field that depends on it, whatever the values hold |
| Visibility.DependencyChain | src/components/PreviewForm.js:47-69 | when C depends on B and B depends on A, C is shown exactly when both value tests pass, in each variant |
| Visibility.AcyclicTerminates | src/components/PreviewForm.js:47-51 | when the siblings' dependencies have no cycle (a ranking decreases along every edge), both variants return an answer |
| Visibility.SameTermination | src/components/FormBuilder.js:11-15 | the two variants recurse alike: one fails to return exactly when the other does |
| Visibility.MatchesPreviewImpliesBuilder | src/components/PreviewForm.js:53-69 | the preview's value test implies the builder's, and for a non-checkbox target the two tests are equal |
| Visibility.PreviewImpliesBuilder | src/components/FormBuilder.js:11-24 | a field the preview shows is shown on the canvas too |
| Visibility.BuilderFalseImpliesPreviewFalse | src/components/FormBuilder.js:11-24 | a field the canvas hides is hidden in the preview too |
| Visibility.AgreeWithoutCheckboxes | src/components/FormBuilder.js:11-24 | among siblings none of which is a checkbox, the two variants give the same answer |
| Visibility.CheckboxBranchNeverShows | src/components/PreviewForm.js:64-68 | the preview's checkbox branch, reached only for a value that is not an object, never shows the field |
| Visibility.CheckboxSelectionDoesNotMatch | src/components/PreviewForm.js:61-68 | a checkbox whose selection array holds the awaited option does not show the dependent field, in either variant: the object test runs first and finds no `.id` on the array |
| Visibility.VariantsDifferOnCheckboxText | src/components/PreviewForm.js:64-69 | a checkbox target holding exactly the awaited text shows the field on the canvas but not in the preview |
| Interpolation.ParseStrict | src/components/PreviewForm.js:102 | the preview's anchored placeholder match: an id of letters, digits and `-`, optionally followed by a dot and a property of letters, digits and `_`; stated by `ParseStrictSound` and `ParseStrictComplete` |
| Interpolation.ParseWhole | src/components/FormBuilder.js:43 | the builder's anchored match `${(.+)}`: the whole inner text is the key (`ParseWholeExact`) |
| Interpolation.ResolvePreview | src/components/PreviewForm.js:100-116 | one parameter value as the preview rewrites it; stated by `NonPlaceholdersPassThrough`, `PlaceholderResult`, `PlaceholderOfText` and `PlaceholderOfChoice` |
| Interpolation.ResolveBuilder | src/components/FormBuilder.js:42-55 | one parameter value as the builder rewrites it; compared with the preview's by `VariantsAgreeOnPlainIds` and `VariantsDifferOnProperties` |
| Interpolation.InterpolateUrl | src/components/FormBuilder.js:7-9 | `url.replace` of every `${key}` by `values[key] \|\| ""` (the same code as PreviewForm.js:3-5); stated by `UrlWithoutPlaceholders`, `UrlSubstitutes` and `UrlReplacementValues` |
| Interpolation.ParseStrictSound | src/components/PreviewForm.js:102 | whatever the strict placeholder grammar accepts is a well-formed `${id}` or `${id.prop}`, and it is printed back unchanged |
| Interpolation.ParseStrictComplete | src/components/PreviewForm.js:102 | every well-formed `${id}` or `${id.prop}` is accepted and read back as the same reference |
| Interpolation.ParseWholeExact | src/components/FormBuilder.js:43 | the builder's grammar accepts `${k}` and reads `k` exactly when `k` is non-empty and has no line terminator |
| Interpolation.InterpolatePreviewParams | src/components/PreviewForm.js:97-119 | the loop returns the input's keys in order, each with its value resolved by the preview's rule |
| Interpolation.InterpolateBuilderParams | src/components/FormBuilder.js:39-58 | the loop returns the input's keys in order, each with its value resolved by the builder's rule |
| Interpolation.NonPlaceholdersPassThrough | src/components/PreviewForm.js:100-116 | a non-string value, or a string the grammar refuses, passes through either variant unchanged |
| Interpolation.PlaceholderResult | src/components/PreviewForm.js:103-110 | a placeholder becomes either a truthy value or `""`, and becomes `""` when the referenced field holds a falsy value |
| Interpolation.PlaceholderOfText | src/components/PreviewForm.js:103-110 | `${id}` naming a field that holds non-empty text becomes that text, in both variants |
| Interpolation.PlaceholderOfChoice | src/components/PreviewForm.js:107-110 | `${id}` naming a field that holds a static option becomes the option's id (id before value before label); `${id.label}` becomes its label, or `""` |
| Interpolation.VariantsAgreeOnPlainIds | src/components/FormBuilder.js:43-49 | on a plain `${fieldId}` the two variants agree, whatever the form holds |
| Interpolation.VariantsDifferOnProperties | src/components/FormBuilder.js:43-45 | on `${a.b}` the variants differ: the builder looks up a field literally named `a.b` |
| Interpolation.BlankPlaceholders | src/components/PropertiesPanel.js:210-222 | the panel's loop keeps every key in order, sends every placeholder parameter as `""`, and keeps every other value |
| Interpolation.BlankIsEmptyFormInterpolation | src/components/PropertiesPanel.js:209-222 | blanking is exactly the preview's interpolation against a form that holds no values |
| Interpolation.UrlWithoutPlaceholders | src/components/FormBuilder.js:7-9 | a URL without `${` comes back from `interpolateUrl` unchanged |
| Interpolation.UrlLiteralPrefix | src/components/FormBuilder.js:7-9 | text without `$` opens no placeholder: it is copied unchanged and the rest of the URL is interpolated on its own |
| Interpolation.UrlSubstitutes | src/components/FormBuilder.js:7-9 | a `${key}` after a literal prefix is replaced by the text of `values[key] \|\| ""`; the prefix is kept and the rest is interpolated in turn |
| Interpolation.UrlReplacementValues | src/components/PreviewForm.js:3-5 | the replacement for a missing field is `""`, for a text its text, and for a non-zero number its decimal notation |
| Validation.ValidateField | src/components/PreviewForm.js:9-44 | a disabled field always passes. A required field holding a falsy or zero-length value gets "This field is required" before any other rule. Every answer is one of the field's messages. Only text fields have rules that apply when the field is not required |
| Validation.SelectionMessagesUnreachable | src/components/PreviewForm.js:11-42 | for dropdown, radio and checkbox fields the only possible error is the generic required message, and it is given exactly when the field is enabled, required and missing its value |
| JsValues.Utf16Length | src/components/PreviewForm.js:10-20 | a string's `length` as the code reads it, in UTF-16 code units: at least its character count, at most twice it, and 0 exactly for the empty string |
| JsValues.Utf16LengthOfBmp | src/components/PreviewForm.js:10-20 | for text inside the Basic Multilingual Plane the `length` the validator compares is the character count |
| JsValues.AstralCharacterCountsTwice | src/components/PreviewForm.js:14-20 | a character beyond U+FFFF counts twice toward `minLength` and `maxLength`: `"a😀"` has length 3 |
| Validation.TextTooShort | src/components/PreviewForm.js:14-17 | a non-empty text shorter than a set `minLength` (in UTF-16 code units) gets the minimum message |
| Validation.TextTooLong | src/components/PreviewForm.js:18-20 | a non-empty text that meets the minimum but exceeds a set `maxLength` (in UTF-16 code units) gets the maximum message |
| Validation.TextWithinBounds | src/components/PreviewForm.js:14-24 | a non-empty text within both bounds that the pattern accepts is valid; a text of exactly `minLength` UTF-16 code units passes |
| Validation.TextPatternRefused | src/components/PreviewForm.js:21-23 | a text within the bounds that the pattern refuses gets the pattern message |
| ApiCalls.ResponseItems | src/components/PreviewForm.js:191-196 | the items of a response: the whole body when `responsePath` is empty, otherwise `items = items?.[seg]` for each dot-separated segment; its loop form is `WalkResponsePath` |
| ApiCalls.MapOptionsOf | src/components/PreviewForm.js:197-226 | the four mapping branches: both keys, the label key alone, the id key alone, or a list whose first item is a string; `None` is the error thrown on a null item. Stated by `MapAll`, `NonArrayGivesNoOptions`, `KeyedMapping` and `StringListMapping` |
| ApiCalls.OptionsFromOutcome | src/components/PreviewForm.js:190-232 | the options the effect stores: the mapped list on success, `[]` when the fetch fails or the mapping throws (`FailureGivesNoOptions`) |
| ApiCalls.AutofillUpdates | src/components/FormBuilder.js:248-262 | the updates a `responseMap` gives, pair by pair in order, or the error a null body throws; stated by `AutofillUpdatesContents`, `AutofillWithoutPairs` and `AutofillNullBodyFails` |
| ApiCalls.WalkResponsePath | src/components/PropertiesPanel.js:235-241 | the loop over the path segments gives the items of `ResponseItems`: the whole body for an empty path, otherwise the value at the end of the walk |
| ApiCalls.WalkAppend | src/components/PropertiesPanel.js:237-241 | walking a path in two pieces is walking it at once |
| ApiCalls.WalkFromNothing | src/components/PropertiesPanel.js:239 | once `items?.[seg]` meets null or undefined, the rest of the walk stays undefined |
| ApiCalls.WalkOneSegment | src/components/PropertiesPanel.js:237-241 | a one-segment path picks that property of an object body |
| ApiCalls.MapAll | src/components/PropertiesPanel.js:244-250 | the `items.map` succeeds exactly when no item is null or undefined, and then gives one mapped option per item, in order |
| ApiCalls.NonArrayGivesNoOptions | src/components/PropertiesPanel.js:243-271 | items that are not an array give `[]` under every mapping configuration |
| ApiCalls.KeyedMapping | src/components/PropertiesPanel.js:243-250 | with both keys set, every object item becomes one option, in order. Its `id` and `label` are read through the keys unless the item has its own `id` or `label`, and every key of the item is kept |
| ApiCalls.StringListMapping | src/components/PropertiesPanel.js:267-268 | a non-empty list of strings, with no key configured, becomes options whose id and label are the strings |
| ApiCalls.FailureGivesNoOptions | src/components/FormBuilder.js:559-561 | a failed fetch, or a body the mapping throws on, leaves `[]` as the options |
| ApiCalls.ComputeAutofillUpdates | src/components/FormBuilder.js:248-262 | the loop over `responseMap` computes the updates of `AutofillUpdates`, or throws on a null body |
| ApiCalls.AutofillUpdatesContents | src/components/FormBuilder.js:249-261 | a target field receives an update exactly when some pair names it with a defined response value. The update is the raw (untruncated) response value of the last such pair |
| ApiCalls.AutofillKeys | src/components/FormBuilder.js:249-261 | with a non-null body the loop does not throw, and the updated targets are exactly those named by a pair whose key the body defines |
| ApiCalls.AutofillLastWins | src/components/FormBuilder.js:249-261 | an updated target holds the value of a pair naming it after which no pair naming it has a defined value: later pairs overwrite earlier ones |
| ApiCalls.AutofillWithoutPairs | src/components/FormBuilder.js:248-249 | an empty `responseMap` gives no updates and never throws |
| ApiCalls.AutofillNullBodyFails | src/components/FormBuilder.js:250 | a null or undefined body throws as soon as there is one pair to read |
| ApiCalls.ApplyAutofill | src/components/FormBuilder.js:263-268 | a failed fetch keeps the values. Every updated target takes its update, every other field keeps its value, and no other key appears |
| CheckboxToggle.DropSelected | src/components/FormBuilder.js:377 | unchecking keeps exactly the entries whose `id` differs from the option's, and never grows the list |
| CheckboxToggle.Toggle | src/components/FormBuilder.js:372-378 | the new value is an array. Checking appends the option to the held selection (`[]` if none); unchecking keeps exactly the entries with another id |
| CheckboxToggle.ToggleShowsState | src/components/FormBuilder.js:370-378 | after a toggle, the box's `checked` state is what was chosen |
| CheckboxToggle.DropSelectedAppend | src/components/FormBuilder.js:377 | the filter distributes over concatenation, so the entries that stay keep their order |
| CheckboxToggle.DropSelectedAbsent | src/components/FormBuilder.js:377 | unchecking an option that no entry holds leaves the list as it is |
| CheckboxToggle.UncheckUndoesCheck | src/components/FormBuilder.js:373-377 | unchecking an option that was just checked restores an array that did not hold it |
| CheckboxToggle.NonArrayStartsEmpty | src/components/FormBuilder.js:373 | a held value that is not an array counts as an empty selection |
| OptionCaching.Step | src/components/PreviewForm.js:136-189 | one field's turn of the effect; its cases are stated by `RepeatedSignatureSkips`, `BlankDependencyGates`, `NewSignatureIssues` and `OtherFieldsIgnored` |
| OptionCaching.Pass | src/components/PreviewForm.js:133-237 | the `forEach` over the flattened fields, each field's turn in order, with the requests tagged by field id; stated by `RequestsComeFromApiFields`, `PassSettles`, `SettledPassIsQuiet` and `SecondPassIssuesNothing` |
| OptionCaching.DepValues | src/components/PreviewForm.js:150 | the dependency part of the signature holds `values[depId]` for each `dependsOn` id, in order |
| OptionCaching.OptionCache.constructor | src/components/PreviewForm.js:127-130 | the signature, options and loading maps start empty |
| OptionCaching.OptionCache.Turn | src/components/PreviewForm.js:135-189 | one field's turn of the effect changes the maps and issues the request exactly as `Step` describes |
| OptionCaching.OptionCache.EvaluationPass | src/components/PreviewForm.js:132-237 | one run of the effect is `Pass` over the flattened fields: each field's turn in document order, with the requests tagged by field id |
| OptionCaching.OptionCache.Complete | src/components/PreviewForm.js:176-233 | an answer stores the mapped list on success and `[]` on failure under the field id, stops loading, and leaves the signatures alone |
| OptionCaching.RepeatedSignatureSkips | src/components/PreviewForm.js:154-157 | a field whose recorded signature equals the current one is left alone and issues nothing |
| OptionCaching.BlankDependencyGates | src/components/PreviewForm.js:160-170 | with a new signature and a blank dependency value, the field gets `[]` options and loading false. No request is issued and the signature is not recorded |
| OptionCaching.NewSignatureIssues | src/components/PreviewForm.js:173-189 | with a new signature and every dependency present, the signature is recorded and loading turns on. One request is issued: a POST to the interpolated URL with the resolved params as body. A GET with at least one resolved param goes to the configured URL as written, placeholders and all, with the params as query. A GET without params goes to the interpolated URL (the same choice as FormBuilder.js:511-520) |
| OptionCaching.OtherFieldsIgnored | src/components/PreviewForm.js:136 | a field without an API configuration, or not a dropdown, radio or checkbox, issues nothing and changes nothing |
| OptionCaching.RequestsComeFromApiFields | src/components/FormBuilder.js:464-569 | a pass issues at most one request per field, each for an API-driven field of the list |
| OptionCaching.PassSettles | src/components/FormBuilder.js:485-506 | given distinct ids, after a pass every field either has the current signature recorded or is gated by a blank dependency |
| OptionCaching.SettledPassIsQuiet | src/components/FormBuilder.js:485-502 | a pass over settled fields issues nothing and records no signature |
| OptionCaching.SecondPassIssuesNothing | src/components/PreviewForm.js:146-174 | a second pass with the same fields and values issues no request: each call goes out at most once per signature |
| PreviewFormState.VisibleAmongContents | src/components/PreviewForm.js:484-488 | the filter keeps exactly the candidates that `isFieldVisible` shows among the given siblings, and fails to return exactly when one of those calls does not return |
| PreviewFormState.VisibleFieldsContents | src/components/PreviewForm.js:481-490 | a submit validates exactly the visible direct children of the top-level sections, each judged among its own section's children |
| PreviewFormState.ErrorsOfContents | src/components/PreviewForm.js:491-495 | the error map has an entry exactly for the ids of visible fields that fail validation, holding one of their messages |
| PreviewFormState.CleanIffAllValid | src/components/PreviewForm.js:491-499 | the error map is empty exactly when every visible field passes validation |
| PreviewFormState.NoSectionsNothingToValidate | src/components/PreviewForm.js:482-483 | a form with no sections at the top level validates nothing |
| PreviewFormState.AutofillRequest | src/components/PreviewForm.js:289-308 | a blur sends a request exactly when the field has an API configuration with a `responseMap` and a non-empty URL. A POST goes to the URL interpolated against the values with the entered text in place. A GET with params goes to the configured URL as written, and a GET without params to the interpolated URL |
| PreviewFormState.AutofillSeesEnteredText | src/components/PreviewForm.js:293-295 | a parameter `${id}` naming the blurred field carries the text just entered, not the older value |
| PreviewFormState.PreviewForm.constructor | src/components/PreviewForm.js:124-126 | no values, no errors, not submitted |
| PreviewFormState.PreviewForm.HandleChange | src/components/PreviewForm.js:472-475 | one value is set and only that field's error is cleared; nothing else changes |
| PreviewFormState.PreviewForm.HandleSubmit | src/components/PreviewForm.js:478-500 | the error map is replaced by the errors of the visible fields, and the form becomes submitted when there are none. A dependency cycle changes nothing. The values are untouched |
| PreviewFormState.PreviewForm.FillAgain | src/components/PreviewForm.js:528 | "Fill Again" shows the form again and keeps the values and errors |
| PreviewFormState.PreviewForm.ToggleCheckbox | src/components/PreviewForm.js:434-444 | the field's value becomes the toggled selection; errors and the submitted flag stay |
| PreviewFormState.PreviewForm.BlurText | src/components/PreviewForm.js:289-308 | the blur returns the autofill request of `AutofillRequest` and changes nothing |
| PreviewFormState.PreviewForm.ReceiveAutofill | src/components/PreviewForm.js:309-331 | the answer merges its updates into the current values as `ApplyAutofill` states; errors and the submitted flag stay |
| BuilderCanvas.DefaultLabel | src/components/FormBuilder.js:83 | the label is the type with its first letter upper-cased, followed by " Field" |
| BuilderCanvas.NewField | src/components/FormBuilder.js:80-103 | a dropped field has the fresh id, the dropped type and the default label. Choice types get two options "Option 1" and "Option 2"; no rule is set; neither dependency nor API configuration |
| BuilderCanvas.NewSection | src/components/FormBuilder.js:441-448 | a new section is "Untitled Section" with one column and no fields |
| BuilderCanvas.DropIntoSection | src/components/FormBuilder.js:78-111 | a section dropped into a section is ignored. Any other widget is appended at the end of the fields of the sections with that id, and every other section is unchanged |
| BuilderCanvas.DropAddsOneField | src/components/FormBuilder.js:104-111 | dropped into a section whose id is unique, the flattened form gains exactly the new field, at the end of that section's fields |
| BuilderCanvas.DropAtRoot | src/components/FormBuilder.js:439-451 | a section dropped on the root is appended as a new section; any other widget changes nothing |
| BuilderCanvas.RootDropAddsNoField | src/components/FormBuilder.js:440-449 | a root drop adds no field to the flattened form |
| BuilderCanvas.MovedIsPermutation | src/components/FormBuilder.js:427-430 | the two `splice` calls give a permutation of the list: the same elements, each as often as before |
| BuilderCanvas.MovedPlacement | src/components/FormBuilder.js:428-429 | the moved element lands at `to`, clamped to the end, and the other elements keep their relative order |
| BuilderCanvas.MoveBackRestores | src/components/FormBuilder.js:424-434 | moving the element back from where it landed restores the list |
| BuilderCanvas.MovedAt | src/components/FormBuilder.js:428-429 | position by position: the slots between the two positions shift by one, and the rest stay |
| BuilderCanvas.SpliceMove | src/components/FormBuilder.js:427-429 | the in-place shift of the copied array leaves exactly the moved list |
| BuilderCanvas.MoveSectionInPlace | src/components/FormBuilder.js:424-434 | copying the sections to an array and splicing it in place gives `MoveSection` |
| BuilderCanvas.MoveSection | src/components/FormBuilder.js:424-434 | `moveSection` moves the section at `from` to `to` |
| BuilderCanvas.MoveField | src/components/FormBuilder.js:119-132 | `moveField` reorders the fields of the sections with that id only, and leaves every other section unchanged |
| BuilderCanvas.MoveFieldKeepsFields | src/components/FormBuilder.js:122-127 | the reordered section keeps its fields, each as often as before |
| BuilderCanvas.UpdateSection | src/components/FormBuilder.js:458-462 | the node at the index is replaced, and every other node is unchanged |
| BuilderCanvas.AutofillRequest | src/components/FormBuilder.js:228-245 | a blur on the canvas sends a request exactly when the field has a `responseMap` and a URL, always to the configured URL, un-interpolated, with the builder-resolved params, as a POST exactly when the method is "POST" |
| BuilderCanvas.CanvasAutofillKeepsPlaceholders | src/components/FormBuilder.js:236-244 | a configured URL with a placeholder is sent from the canvas with the placeholder still in it |
| BuilderCanvas.CanvasValues.constructor | src/components/FormBuilder.js:418 | the canvas starts with no values |
| BuilderCanvas.CanvasValues.SetValue | src/components/FormBuilder.js:225-227 | a text input's change sets the one value |
| BuilderCanvas.CanvasValues.ToggleCheckbox | src/components/FormBuilder.js:370-378 | the field's value becomes the toggled selection |
| BuilderCanvas.CanvasValues.BlurText | src/components/FormBuilder.js:228-245 | the blur returns the canvas's autofill request and changes nothing |
| BuilderCanvas.CanvasValues.ReceiveAutofill | src/components/FormBuilder.js:246-268 | the answer merges its updates into the values as `ApplyAutofill` states |
| DependencyGraph.DoesFieldDependOn | src/components/PropertiesPanel.js:34-51 | the search with a shared visited set terminates. A true answer means the current field is reachable from the candidate. A false answer leaves each newly visited id with all its successors visited, and the current field not among them |
| DependencyGraph.VisitDependencies | src/components/PropertiesPanel.js:46-50 | the `for` loop over `depIds`: true means the current field is reachable from the candidate; false means every successor is visited, the current field was not newly visited, and the visited set stays closed |
| DependencyGraph.VisitDependency | src/components/PropertiesPanel.js:46-49 | one turn of the search's loop: the successor is the current field or leads to it, or else it is visited and the visited set stays closed |
| DependencyGraph.DependsOn | src/components/PropertiesPanel.js:34-51 | started with an empty visited set, the search answers true exactly when the current field is reachable from the candidate over the `dependency.fieldId` and top-level `dependsOn` edges |
| DependencyGraph.UnknownReachesOnlyItself | src/components/PropertiesPanel.js:39-40 | an id no field carries reaches nothing but itself |
| DependencyGraph.DependencyCandidates | src/components/PropertiesPanel.js:283-288 | the offered fields are exactly the flattened fields other than the selected one from which the selected one is not reachable |
| DependencyGraph.SuccAfterEdit | src/components/PropertiesPanel.js:666-671 | setting a dependency changes only the edited field's edges, and adds only the new target |
| DependencyGraph.PartialEditKeepsAcyclic | src/components/PropertiesPanel.js:283-288 | the same promise when the dependency reached only some of the flattened fields that carry the id: the graph stays acyclic |
| DependencyGraph.PartialEditEdges | src/components/PropertiesPanel.js:64-72 | after such an edit, every id's successors are either all the old ones, or all those of the edit of every field with the id |
| DependencyGraph.ValueEditKeepsEdges | src/components/PropertiesPanel.js:724-733 | rewriting a dependency to the target the first field with the id already has changes no edge |
| DependencyGraph.CandidateKeepsAcyclic | src/components/PropertiesPanel.js:283-288 | in an acyclic graph, making the field depend on any offered candidate leaves the graph acyclic |
| PropertiesPanel.Trim | src/components/PropertiesPanel.js:160 | `trim()` is empty exactly when the text is all white space, and otherwise starts and ends with a non-space |
| PropertiesPanel.TrimRemovesPadding | src/components/PropertiesPanel.js:164 | a label padded with white space on both sides is stored without the padding |
| PropertiesPanel.TrimIdempotent | src/components/PropertiesPanel.js:160-164 | trimming twice is trimming once |
| PropertiesPanel.AddedOptions | src/components/PropertiesPanel.js:159-169 | a non-blank input appends one option with the fresh id and the trimmed label and keeps the others; a blank input changes nothing |
| PropertiesPanel.EditedOptions | src/components/PropertiesPanel.js:170-175 | every option keeps its id, and only the option at the index takes the new label |
| PropertiesPanel.RemovedOption | src/components/PropertiesPanel.js:176-178 | only the option at the index is dropped, and the rest keep their order; an index out of range changes nothing |
| PropertiesPanel.RemoveUndoesAdd | src/components/PropertiesPanel.js:159-178 | removing the option just added gives back the list it was added to |
| PropertiesPanel.EditToSameLabel | src/components/PropertiesPanel.js:170-175 | editing an option to the label it has changes nothing |
| PropertiesPanel.EditKeepsIdList | src/components/PropertiesPanel.js:170-175 | editing keeps the set of option ids, so a value naming an option still names one |
| PropertiesPanel.MergeDependencyIsEdit | src/components/PropertiesPanel.js:661-673 | merging `{ dependency }` into the flattened fields is the dependency edit of the graph |
| PropertiesPanel.SelectingCandidateKeepsAcyclic | src/components/PropertiesPanel.js:283-288 | choosing an offered candidate in the select (`updateFieldById` on the form tree) keeps the dependency graph of the flattened form acyclic, as the "Cycle-safe" note at line 756 promises. The selection may be a field or a section (FormBuilder.js:142); ids may repeat |
| PropertiesPanel.DependencyValueKeepsGraph | src/components/PropertiesPanel.js:724-733 | choosing the awaited value keeps the target the field already depends on, so no edge of the graph changes |
| PropertiesPanel.Panel.constructor | src/components/PropertiesPanel.js:105-118 | the panel starts from the selected field: its API configuration as the draft, or the default. The params text is that configuration's params JSON or `{}`, and the source is "api" or "static". There is no error, no preview and no loading |
| PropertiesPanel.Panel.Receive | src/components/PropertiesPanel.js:121-139 | new props reset the draft, params text, option source, error, preview and loading exactly when the selected field's id changes; otherwise the local state is kept |
| PropertiesPanel.Panel.UpdateField | src/components/PropertiesPanel.js:150-152 | the updates are merged into the nodes with the selected id; the panel's own state is unchanged |
| PropertiesPanel.Panel.DeleteField | src/components/PropertiesPanel.js:153-156 | the nodes with the selected id are removed and the selection is cleared |
| PropertiesPanel.Panel.SetOptionInput | src/components/PropertiesPanel.js:497 | typing sets the option input and nothing else |
| PropertiesPanel.Panel.AddOption | src/components/PropertiesPanel.js:159-169 | a non-blank input is added as `AddedOptions` describes and the input is cleared; a blank input changes nothing |
| PropertiesPanel.Panel.EditOption | src/components/PropertiesPanel.js:170-175 | the selected field's options become `EditedOptions` of them |
| PropertiesPanel.Panel.RemoveOption | src/components/PropertiesPanel.js:176-178 | the selected field's options become `RemovedOption` of them |
| PropertiesPanel.Panel.HandleOptionSourceChange | src/components/PropertiesPanel.js:302-329 | "static" drops the field's API configuration and keeps its options. Any other choice installs the default configuration in the draft and on the field, empties the options, and resets the params text to `{}` |
| PropertiesPanel.Panel.EditDraft | src/components/PropertiesPanel.js:541-621 | an edit of the draft's inputs replaces the draft and nothing else |
| PropertiesPanel.Panel.HandleParamTextChange | src/components/PropertiesPanel.js:189-199 | the text is kept as typed. A failed parse sets the error, keeps the params and disables Save (line 636); a parse replaces the params and clears the error |
| PropertiesPanel.Panel.HandleApiSave | src/components/PropertiesPanel.js:202-234 | the draft becomes the field's configuration with no options, and the panel is loading with no error and no preview. The preview request sends every placeholder param as `""` to the draft's own URL, POST exactly when the method is "POST" |
| PropertiesPanel.Panel.CompleteApiSave | src/components/PropertiesPanel.js:235-279 | a mapped answer becomes the preview with no error; a failed fetch, or a mapping that throws, shows "Failed to fetch API options." with an empty preview. Loading ends either way |
| PropertiesPanel.Panel.SelectDependency | src/components/PropertiesPanel.js:661-673 | the empty choice removes the dependency; any other id becomes the target with no value yet |
| PropertiesPanel.Panel.SetDependencyValue | src/components/PropertiesPanel.js:690-738 | rendered only once the current target is found among the flattened fields (lines 289-291): the target stays the current one and the awaited value is replaced |
| PropertiesPanel.Panel.DependencyOptions | src/components/PropertiesPanel.js:283-288 | the offered targets are exactly the non-section fields other than the selected one from which it is not reachable |
| BuilderApp.Initial | src/App.js:11-21 | the app starts unlocked, with an empty form and a valid state |
| BuilderApp.StepKeepsValid | src/App.js:111-207 | every control the page renders enabled keeps the shell valid. While locked, the fields are the published ones, nothing is selected and the form is non-empty; a draft is never empty |
| BuilderApp.PublishLocks | src/App.js:33-41 | publishing locks the builder on the current fields with no selection; unpublishing unlocks it and keeps the fields |
| BuilderApp.SaveOnlySnapshots | src/App.js:28-31 | saving sets the draft to the current fields and changes nothing else |
| BuilderApp.RestoreNeedsDraft | src/App.js:43-45 | restoring without a draft changes nothing; with one, only the fields change, to the draft |
| BuilderApp.LockedCanvasIsInert | src/App.js:165-171 | while locked, the canvas's `setFields` and `setSelectedFieldId` do nothing |
| BuilderApp.CanvasShowsFields | src/App.js:165-191 | in a valid state the canvas and the preview are shown the same fields |
| BuilderApp.LockedFreezesForm | src/App.js:111-207 | while locked, no enabled control changes the fields or the selection, and only Unpublish ends the lock |
| BuilderApp.RunKeepsDraft | src/App.js:28-45 | any run of controls without Save leaves the draft as it was |
| BuilderApp.RunKeepsValid | src/App.js:111-207 | any run of enabled controls from a valid state ends in a valid state |
| BuilderApp.SaveEditRestore | src/App.js:28-45 | Save, then any edits without another Save, then Restore brings back the saved fields |
| BuilderApp.App.IsLocked | src/App.js:24 | the builder is locked exactly when a published snapshot exists |
| BuilderApp.App.constructor | src/App.js:11-21 | the component starts in the initial state |
| BuilderApp.App.HandleSave | src/App.js:28-31 | `handleSave` performs the `Saved` transition |
| BuilderApp.App.HandlePublish | src/App.js:33-37 | `handlePublish` performs the `Published` transition |
| BuilderApp.App.HandleUnpublish | src/App.js:39-41 | `handleUnpublish` performs the `Unpublished` transition |
| BuilderApp.App.HandleRestoreDraft | src/App.js:43-45 | `handleRestoreDraft` performs the `Restored` transition |
| BuilderApp.App.CanvasSetFields | src/App.js:167 | the canvas's setter replaces the fields only while unlocked |
| BuilderApp.App.CanvasSetSelected | src/App.js:169 | the canvas's selection setter works only while unlocked |
| BuilderApp.App.Dispatch | src/App.js:122-207 | an enabled control performs its transition and keeps the shell valid |

## Notes on what the code does

Each point below is where a reader might expect something else.

- Interpolation of an object value picks `id ?? value ?? label`, in that order, and has no case for arrays. An array is an object to the code, so `${id}` on a checkbox selection reads `.id` of the array and gives `""`.
- The cycle check follows `dependency.fieldId` and the field's top-level `dependsOn` (PropertiesPanel.js:43-44). The `dependsOn` inside `apiConfig` is not followed, so only the top-level list is an edge in `DependencyGraph`.
- Autofill computes a date truncation to `YYYY-MM-DD` but stores the raw `json[apiKey]` (FormBuilder.js:251-260, PreviewForm.js:314-323). `AutofillUpdatesContents` states that the raw value is stored.
- A dependency on a checkbox group never matches a selection array, even one holding the awaited option. The object test runs before the checkbox branch, and an array has no `.id` (`CheckboxSelectionDoesNotMatch`). For a plain value the checkbox branch only hides (`CheckboxBranchNeverShows`).
- A GET with at least one parameter is sent to the configured URL as written, without interpolating its placeholders. Only a POST, or a GET without parameters, uses the interpolated URL.
- The canvas sends its autofill request to the configured URL without interpolation (FormBuilder.js:237-244); only the preview interpolates it.
- There are no table fields and no row-scoped option caches in this code.

## Left out

- Rendering, CSS, icons, the `Card` component, `alert`, the clipboard copy buttons, and the `PreviewWindow.js` page: presentation and browser I/O.
- `DraggableField.js` hover handling and the `WidgetList.js` palette: drag-and-drop mechanics. Only their list-level effects are modelled: drops, `moveField` and `moveSection`.
- `fetch`, `response.json()` and `URLSearchParams` encoding: a request is an `HttpRequest` value and its answer an `Outcome` parameter. Asynchrony, answer ordering, stale answers and React effect scheduling are not modelled; an answer is applied by `Complete`, `CompleteApiSave` or `ReceiveAutofill` whenever it is passed in.
- `OptionCaching.SignatureOf`: the signature is the pair of resolved params and dependency values, compared structurally. `JSON.stringify` identifies some values that the model keeps apart, such as `undefined` and `null` inside the dependency array, or a key holding `undefined` and an absent key.
- `JSON.parse` of the params text: it is the `parsed` parameter of `HandleParamTextChange`. A text that parses to something other than an object (for instance `null`, which makes the later save throw) is not modelled.
- `JSON.stringify` of the params for the panel's params text is the `paramsJson` parameter of the panel's constructor and `Receive`.
- `new RegExp(pattern).test(value)` is the `matches` parameter of validation, a total function. An invalid pattern makes `new RegExp` throw (PreviewForm.js:21), which aborts `handleSubmit` with no state change; the model does not capture that throw.
- `uuidv4()` ids are parameters (the new field's, its two options' and the new section's ids, and the added option's).
- Numbers are integers: floating point, `NaN` and `Number(e.target.value)` are not modelled. So the properties panel's numeric inputs (the columns clamp, `minLength`, `maxLength`) are only the generic `UpdateField`, as are its label, placeholder, description and flag inputs.
- `PropertiesPanel.Panel.EditDraft` replaces the whole draft; the comma-split, trim and filter of the "Depends On" input (PropertiesPanel.js:613-621) and the other single-property draft edits are its argument, not modelled one by one.
- The `getDependencyValues` helper and the value select's option list (PropertiesPanel.js:292-299, 716-722) are rendering; only the dependency edits they lead to are modelled.
- `Visibility.IsFieldVisiblePreview`, `Visibility.IsFieldVisibleBuilder`: a dependency cycle among siblings makes the source recurse until the stack overflows; the model answers `None` and a submit then changes nothing.
- `BuilderCanvas.MoveSection`: with `from` past the end, the source's `splice` inserts `undefined` into the list; the model leaves the list unchanged (so do `MovedChildren` and `MoveSectionInPlace`).
- `BuilderCanvas.DefaultLabel` upper-cases ASCII letters only, which covers every palette type.
- `BuilderCanvas.NewField` does not carry `defaultValue: ''`, which nothing in the modelled code reads.
- Checkbox selections holding `null` entries (on which `o.id` throws) are not modelled; `Get` on such an entry answers `undefined`.
- `JsValues.Get`: a string's element indices (`"abc"["1"]`) are taken per character rather than per UTF-16 code unit, so they differ from the source after a character beyond U+FFFF; its `length` does count code units.
- Reading inherited prototype members (`toString` and the like) through `values[...]` or `item[...]` is not modelled.
- The empty date-field `onBlur` handlers: there is nothing in them to model.
- The `copiedFieldId` state and the selection clicks of the canvas are UI state outside the form definition.
