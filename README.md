# pyviz core, modelled in Dafny

pyviz is a browser page that runs a Python program under a tracer and lets the user step through the result. The tracer is a Python script run inside the page. For every executed line it records a step holding:

- the line number;
- the output so far;
- the program's local variables, serialised to JSON;
- the list reads and writes since the previous step.

The page then replays those steps. It has playback controls, a tree view and a graph view. The graph view draws:

- arrays, with the cells that changed highlighted;
- linked lists, binary and generic trees;
- adjacency-list and object graphs.

This project models the parts of that system that decide what is recorded and what is shown:

- the tracer script and `runCode` (`services/executionService.ts`);
- the graph view of the visualiser (`components/Visualizer.tsx`);
- the application state and its handlers, and the patch-notes Markdown grouper (`App.tsx`);
- the playback controls (`components/Controls.tsx`).

Module by module:

- `Common`: `Option`, `Result`, `indexOf`, JavaScript white space and `trim`, and an all-or-nothing `Collect`.
- `Json`: JSON values. It covers JavaScript truthiness and member access, and Python's insertion-ordered dict assignment. It also gives the `Object.entries` order (array-index keys first, ascending) and `JSON.stringify`.
- `PyHeap`: Python values and a heap of objects indexed by `id()`.
- `Serializer`: `Tracer.serialize`, as a pure recursion in which every child gets its own copy of `seen`.
- `Tracking`: the access log, `TrackedList` and the `input()` queue, as classes whose methods update their fields.
- `Tracing`: `Tracer.snapshot` as a method on a `Tracer` class, and the hooks with the `try`/`except`/`finally` of the script. The script is modelled twice: as a fold over the events the traced program causes (`Prefix`, `Script`), and as the method `RunScript`, which is proved equal to the fold.
- `Transport`: `runCode`'s post-processing of the script's output.
- `VariableOrder`: the panel order of the visualiser:
  - the merge of newly seen variables;
  - the `sortedKeys` comparator;
  - drag-and-drop reordering.
- `ArrayView`: the changed-cell highlighting and the array panel.
- `GraphView`: the graph-view filter, the badges and the choice of component per variable.
- `NetworkGraphView`: the node and edge extraction of `NetworkGraph`.
- `GraphNodeView`: the recursive `GraphNode` renderer. It covers the back-reference glyph, the linked-list / binary-tree / generic-tree choice, and the copies of `visited`.
- `AppState`: the `App` component's state (`trace`, `stepIndex`, `userInputs`, `selectedLine`, `maxSteps`) as a class, with its handlers and the values derived from it.
- `Controls`: JavaScript `parseInt`, the step-limit clamp, the button states, the counter and the slider.
- `Markdown`: the line-based block grouping of `MarkdownRenderer`.

The traced Python program is not interpreted. It is given as the sequence of hook events it causes, each carrying the frame as the hook sees it at that moment:

- frame starts;
- executed lines;
- tracked list accesses;
- `input()` calls.

The sequence comes with how the program ends. Likewise an awaited `runCode(...)` in `App.tsx` is a parameter `run` of the handlers: a function from the step limit and the inputs to a returned trace or a thrown message.

Among the facts proved:

- **The tracer:**
  - it records exactly `min(MAX_STEPS, lines run)` snapshots, plus the final snapshot and the error step where they apply;
  - answers to `input()` are consumed first in, first out;
  - the lines that run while the error of an unanswered `input()` unwinds are still recorded;
  - a rerun with more answers follows the same events up to the first `input()` the first run could not answer, and both runs show the steps recorded up to that call first.
- **Serialisation:** a ring of instances linked through `next` within the depth cap keeps exactly one `cyclic` marker.
- **Renderers:**
  - the graph-node renderer never draws the back-reference glyph for a repeated JSON text, only for a `cyclic` tag;
  - the Markdown grouper keeps every item and every block, in order.
- **App and controls:**
  - every handler keeps the selected index inside a non-empty trace;
  - the step-limit field and the counter read back what they display.

## Model

| member | source | states |
|---|---|---|
| Json.Put | services/executionService.ts:134 | Python `d[k] = v`: an existing key keeps its position and takes the new value, a new key goes to the end; every other key keeps its value |
| Json.PutKeepsDistinct | services/executionService.ts:184 | assigning into a dict never creates a duplicate key |
| Json.LookupAt | components/Visualizer.tsx:743 | with distinct keys, looking up the key of entry `i` gives entry `i`'s value |
| Json.JsEntries | components/Visualizer.tsx:27 | `Object.entries` of a parsed object is a reordering of its members (same multiset) |
| Json.IndexEntries | components/Visualizer.tsx:27 | the array-index keys come first, in ascending numeric order |
| Json.NoIndexKeysKeepOrder | components/Visualizer.tsx:27 | an object with no array-index key is enumerated in insertion order |
| Json.DigitsValueOfNatToString | components/Controls.tsx:62 | the decimal text of a number reads back as that number, which the step-limit field and the counter rely on |
| Json.ElementTextShorter | components/Visualizer.tsx:192 | the `JSON.stringify` text of an array element is strictly shorter than the array's |
| Json.MemberTextShorter | components/Visualizer.tsx:192 | the `JSON.stringify` text of an object member is strictly shorter than the object's |
| Json.ObjectTextOpensWithBrace | components/Visualizer.tsx:192 | the text of an object starts with `{` (so it is never the text of `null`) |
| Serializer.Serialize | services/executionService.ts:100-144 | beyond depth 10 a value is `"..."`; a primitive is itself; an object already on the path is a `cyclic` marker with its id |
| Serializer.SerializeObject | services/executionService.ts:114-144 | an expanded object becomes an array exactly when it is a plain list, with one element per item; a string only for a dict whose key text fails or for `str(obj)`; otherwise an object |
| Serializer.SerializeAll | services/executionService.ts:124-132 | each item is judged one level deeper against the container's own path: at the depth cap every item is `"..."`; below it a primitive item is itself and an item whose id is on the path is its `cyclic` marker; same length and order |
| Serializer.ShapeByKind | services/executionService.ts:123-142 | the JSON shape of each kind of object, in `isinstance` order: TrackedList tagged `list` with its `_id` attribute (which a copy keeps from its original), plain list an array, tuple/set/deque tagged with their serialised items, dict an object or the first `str(key)` error text, instance tagged `object` with id, class and exactly its public attributes, anything else a string |
| Serializer.AttrsArePublicOnes | services/executionService.ts:138 | an instance's `data` holds exactly the attributes not starting with `__`, in `__dict__` order |
| Serializer.EntriesOutcome | services/executionService.ts:134 | a dict becomes its first `str(key)` error text when one raises; otherwise each key text maps to the serialisation of the last value stored under it |
| Serializer.RingCyclicMarkers | services/executionService.ts:104-112 | a ring of instances linked through `next` (each may carry further primitive attributes such as `val`) no longer than the depth cap serialises with exactly one `cyclic` marker; a longer one with none |
| Serializer.OffPathObjectIsExpanded | services/executionService.ts:107-112 | an object not on the current path is expanded in full |
| Serializer.SharedChildExpandedTwice | services/executionService.ts:138 | an object shared by two attributes is expanded under both, to the same value |
| Serializer.ErrorStaysLocal | services/executionService.ts:143-144 | a value whose conversion raises becomes its error text; the enclosing list keeps its length and its other elements |
| Tracking.NormalizeIndex | services/executionService.ts:57 | the logged index of a negative subscript counts back from the end |
| Tracking.Logged | services/executionService.ts:53-62 | an integer subscript logs exactly one entry with the normalised index; a slice or other subscript logs nothing |
| Tracking.SliceBound | services/executionService.ts:65 | a slice bound defaults when missing, counts back from the end when negative, and is clamped into the list |
| Tracking.ListGet | services/executionService.ts:65 | `list.__getitem__` succeeds for an in-range integer index, returning that element, and for any slice, returning the elements between the resolved bounds; any other subscript raises |
| Tracking.ListSet | services/executionService.ts:79 | `list.__setitem__` succeeds for an in-range integer index, changing only that element, and for a slice given an iterable, splicing its elements in place of the selected run |
| Tracking.SliceAssignReplacesRun | services/executionService.ts:79 | after a slice assignment the elements before and after the run stay in order, the length changes by what came in minus what went out, and reading the new run back gives the assigned elements |
| Tracking.AccessLog.Drain | services/executionService.ts:189-190 | the snapshot takes the whole access log and leaves it empty |
| Tracking.TrackedList.GetItem | services/executionService.ts:51-65 | a read appends exactly `Logged` (the same entries the tracer's list-access event appends) and then answers as `list.__getitem__` does |
| Tracking.TrackedList.SetItem | services/executionService.ts:67-79 | a write appends exactly `Logged`, like the tracer's list-access event; the list changes exactly as `list.__setitem__` says, or not at all when that raises |
| Tracking.InputQueue.Input | services/executionService.ts:31-36 | `input()` returns the oldest queued answer and removes it, or raises `NeedsInputError` on an empty queue |
| Tracking.CallInput | services/executionService.ts:31-36 | `n` calls of `InputQueue.Input` return exactly `Answers` of the queue they start from, and leave the unused answers queued |
| Tracking.AnswersArePrefix | services/executionService.ts:31-36 | `n` calls of `input()` answer with the first `n` queued values in order, or end in `NeedsInputError` |
| Tracing.CapturedNames | services/executionService.ts:157-165 | a step's variables are exactly the local names the filter keeps, in `f_locals` order |
| Tracing.CapturedValue | services/executionService.ts:167-184 | a kept name is described by its serialised value and `type(v).__name__` (a subclass such as `defaultdict` keeps its own name; `list` for a TrackedList), with the id for lists; a dropped name is absent |
| Tracing.Tracer.Snapshot | services/executionService.ts:146-198 | with the budget spent nothing changes; otherwise the count rises by one and exactly one step is appended, holding the whole access log, which is left empty |
| Tracing.Prefix | services/executionService.ts:200-217 | along the run the step count equals the number of steps and never exceeds the budget; `last_frame` is a frame of the program |
| Tracing.Take | services/executionService.ts:200-217 | one event appends at most one step, exactly for a line of the program while the budget lasts, and never removes one; only `input()` touches the answers, taking at most the first; once waiting for input the run keeps waiting |
| Tracing.Finish | services/executionService.ts:232-252 | the handlers and `finally` only append to the steps, at most the error step and the final snapshot, and nothing while the run waits for input; the result waits for input exactly when the run did; an error is handed on exactly when the run is not waiting and the error escapes the handlers |
| Tracing.Script | services/executionService.ts:219-259 | the script's steps begin with those of the fold over the events, and are exactly those when the run waits for input; only an escaping error is handed on |
| Tracing.PrefixKeepsTrace | services/executionService.ts:200-205 | later events never remove a recorded step |
| Tracing.RunScript | services/executionService.ts:207-259 | the script's result equals the fold `Script` over the program's events, including an `input()` whose `NeedsInputError` the program catches itself |
| Tracing.WaitingPersists | services/executionService.ts:200-234 | once an `input()` finds no answer and no handler catches the error, the run stays waiting for input, takes no later answer and keeps every step recorded so far; the hooks stay installed, so lines run while the error unwinds may still add steps |
| Tracing.EnoughAnswersNeverStall | services/executionService.ts:31-36 | with an answer for every `input()` call the run never waits for input |
| Tracing.InputsConsumedInOrder | services/executionService.ts:31-36 | answers are consumed first in, first out, and the run waits for input exactly at the first uncaught call beyond them |
| Tracing.ReplayKeepsSteps | services/executionService.ts:31-36 | a replay with extra answers records the very same steps while the first run had enough answers |
| Tracing.ResumeExtends | services/executionService.ts:31-36 | two runs sharing the events up to the first `input()` the first run cannot answer, the rerun having more answers, both begin with the steps recorded over those events, unchanged, whatever each does afterwards (the first run's unwinding, the rerun's continuation) |
| Tracing.ResumeShowsEarlierSteps | services/executionService.ts:232-252 | for the script's results: a run waiting for input and its rerun with more answers both show first the steps recorded before the unanswered call; a run that had an answer for every call gives the same result with more answers |
| Tracing.ScriptKeepsPrefix | services/executionService.ts:232-252 | the steps recorded over the first events of a run open the script's output |
| Tracing.UnwindingLineRecorded | services/executionService.ts:200-234 | for `try:` / `n = int(input())` / `except ValueError:` / `n = 0` with no answers, the `except` test on line 3, run while the error unwinds, is the third step of the result, which waits for input |
| Tracing.StepsCounted | services/executionService.ts:148-151 | the step count is the number of lines of the program run, those run while an error unwinds included, capped at `MAX_STEPS` |
| Tracing.LastFrameSet | services/executionService.ts:200-205 | `last_frame` is set exactly when a frame of the program started |
| Tracing.StepBudget | services/executionService.ts:148-151 | the exact number of steps: `min(MAX_STEPS, lines run)` for a run waiting for input, the lines run while its error unwinds included; otherwise `min(MAX_STEPS, lines run + the final snapshot)` plus the uncounted error step, so a program running more lines than the budget ends with exactly `MAX_STEPS` snapshots |
| Tracing.NeedsInputSuppressesFinal | services/executionService.ts:250-252 | a run waiting for input ends with exactly the steps the hooks recorded, those of the unwinding included, with no error step and no final snapshot |
| Tracing.NoExecutionFinishedStep | services/executionService.ts:197 | apart from the error step, every step reads "Line N" for its own line |
| Transport.Delivered | services/executionService.ts:286-303 | a trailing error step is removed and becomes the error text; an empty trace not waiting for input is "No execution steps captured."; an escaped exception is its message or "Execution failed"; otherwise steps and the needs-input flag pass through |
| Transport.RunCode | services/executionService.ts:278-304 | `runCode`'s post-processing equals `Delivered` |
| Transport.RaisedReportedOnlyWithoutFinalSnapshot | services/executionService.ts:239-252 | as written, a program that raises without stalling for input (including one that caught an unanswered `input()`) is reported as an error exactly when the `finally` block takes no final snapshot, and then with exactly its recorded steps |
| Transport.RaisedOneLinerNotReported | services/executionService.ts:288 | as written, a one-line program that raises comes back with no error |
| Transport.RaisedAlwaysReported | services/executionService.ts:246-252 | with the final snapshot skipped after an exception, every raising program that does not stall for input is reported with its error text after exactly its recorded steps; other runs are unchanged |
| VariableOrder.MergeOrderProperties | components/Visualizer.tsx:566-575 | the merged order keeps the previous order as a prefix, adds exactly the step's unseen names, and has no duplicate |
| VariableOrder.MergeOrderIdempotent | components/Visualizer.tsx:566-575 | revisiting the same step leaves the order unchanged |
| VariableOrder.MergeOrder | components/Visualizer.tsx:566-575 | the merged order keeps the previous order as a prefix and holds exactly the previous and the step's names |
| VariableOrder.SortedKeys | components/Visualizer.tsx:630-637 | `sortedKeys` is a permutation of the keys, sorted by position in `variableOrder` |
| VariableOrder.SortedKeysOrder | components/Visualizer.tsx:630-637 | known names come before unknown ones, known ones in `variableOrder` order |
| VariableOrder.SortedKeysStable | components/Visualizer.tsx:630-637 | names of equal rank keep their `Object.keys` order |
| VariableOrder.HandleDrop | components/Visualizer.tsx:587-603 | dropping a name on itself or an unlisted name changes nothing; otherwise the dragged name moves to the target's index and the rest keep their order |
| VariableOrder.SpliceMoves | components/Visualizer.tsx:598-599 | the two splices move one element and keep the others in order |
| ArrayView.ChangedIndices | components/Visualizer.tsx:363-371 | a cell is highlighted exactly when the previous array has a value there whose JSON text differs |
| ArrayView.UnchangedArrayHighlightsNothing | components/Visualizer.tsx:363-371 | the same array twice highlights nothing |
| ArrayView.AppendHighlightsNothing | components/Visualizer.tsx:366-367 | appended cells are never highlighted |
| ArrayView.OneAssignmentHighlightsOneCell | components/Visualizer.tsx:363-371 | one changed assignment highlights exactly that cell |
| ArrayView.GraphArray | components/Visualizer.tsx:360-420 | one cell per element, each highlighted as `ChangedIndices` says; the bar-chart toggle exactly for a non-empty all-number non-deque array |
| GraphView.Probe | components/Visualizer.tsx:748-752 | `'k' in d` throws exactly when `d` is neither object nor array, and is true exactly when a probed name is a key |
| GraphView.GraphVisible | components/Visualizer.tsx:742-760 | a shown value is truthy; every untagged object or array is shown; only an `object`-tagged value can make the test throw |
| GraphView.Classify | components/Visualizer.tsx:792-800 | the map badge only for an untagged object or array, which always gets the graph or the map badge; only an `object`-tagged value can make the test throw; a value neither untagged nor `object`-tagged gets no badge |
| GraphView.Dispatch | components/Visualizer.tsx:829-841 | only a deque whose `items` is a truthy non-array fails to render; an array is an array panel over its own items; the node panel is titled with the variable's name and only for an `object` tag; the graph and map panels receive the value itself |
| GraphView.Kept | components/Visualizer.tsx:742-760 | the filter succeeds exactly when no verdict throws, and keeps exactly the keys with a shown verdict |
| GraphView.VisibleKeys | components/Visualizer.tsx:742-760 | the graph view lists exactly the keys whose value passes the filter, and throws when one value's test throws |
| GraphView.KeptInOrder | components/Visualizer.tsx:742-760 | filtering two runs of keys one after the other is filtering each and joining the results |
| GraphView.VisibleKeysInOrder | components/Visualizer.tsx:742-760 | the graph-view filter distributes over concatenation and keeps a single key exactly when its value passes, so it keeps `sortedKeys` order |
| GraphView.FilterThrowsOnlyOnPrimitiveData | components/Visualizer.tsx:747-752 | the filter throws only for an object-tagged value whose truthy `data` is a primitive |
| GraphView.ObjectShownIffStructureName | components/Visualizer.tsx:747-753 | an object with object `data` is shown exactly when `data` has one of the structure names |
| GraphView.InstanceShownIffStructureAttribute | components/Visualizer.tsx:747-753 | a Python instance is shown exactly when a public attribute has a structure name |
| GraphView.TuplesAndSetsHaveNoPreview | components/Visualizer.tsx:746-841 | tuples and sets pass the filter (line 746) but no component draws them |
| GraphView.EmptyListStillShown | components/Visualizer.tsx:745-756 | an empty array fails the length test, passes the plain-object test, and is drawn as an array |
| GraphView.DictOfListsIsGraph | components/Visualizer.tsx:792-800 | an untagged dict whose values are all arrays gets the graph badge; any other untagged dict the hash-map badge |
| GraphView.GraphPaneListsVisibleKeys | components/Visualizer.tsx:712-845 | a step without variables shows "No local variables"; otherwise the panel names are exactly the filtered `sortedKeys`, in order, and the placeholder appears exactly when none passes |
| GraphView.PanelsFor | components/Visualizer.tsx:780-845 | one panel per name, in order |
| GraphView.TrackedListNeverInGraphView | components/Visualizer.tsx:742-758 | as written, no `TrackedList` gets a panel in the graph view |
| GraphView.TrackedListShownWithLists | components/Visualizer.tsx:742-758 | with `list`-tagged values accepted, a non-empty `TrackedList` gets an array panel over its items |
| GraphView.WithListsChangesOnlyLists | components/Visualizer.tsx:742-758 | the corrected filter and dispatch agree with the original on every value that is not `list`-tagged |
| NetworkGraphView.NetworkGraph | components/Visualizer.tsx:21-84 | the effect of the extraction equals the specification `Extract`: the adjacency-list case, a throw on `null`, the object walk, or no graph |
| NetworkGraphView.Extract | components/Visualizer.tsx:21-84 | an adjacency list always yields a graph; `null` throws; only `null` or an `object`-tagged value can throw |
| NetworkGraphView.AdjacencyLoop | components/Visualizer.tsx:26-40 | the `forEach` over the entries builds exactly `AdjacencyFrom` of the empty graph |
| NetworkGraphView.ListNeighbors | components/Visualizer.tsx:30-37 | the inner `forEach` adds an edge to each neighbour and its node when new, as `ListedFrom` says |
| NetworkGraphView.WalkLoop | components/Visualizer.tsx:42-79 | the breadth-first loop skips visited heads and otherwise visits them, ending in `Extract`'s graph or throwing on a `null` neighbour |
| NetworkGraphView.VisitHeadOnce | components/Visualizer.tsx:46-78 | one turn on an unvisited head adds its node and visits its neighbours, as `VisitHead` says |
| NetworkGraphView.VisitNeighbors | components/Visualizer.tsx:55-77 | the neighbour loop adds an edge per neighbour, queues every `object` neighbour (visited or not) and stops at the first `null`, as `VisitFrom` says |
| NetworkGraphView.AdjacencyListGraph | components/Visualizer.tsx:26-40 | one node per key and per listed neighbour, none twice, each labelled with its id; one edge per neighbour in `Object.entries` order; every edge joins two nodes |
| NetworkGraphView.VisitNeighbor | components/Visualizer.tsx:55-77 | a `null` neighbour throws; a `cyclic` one adds an edge to its id and is not queued; an `object` one adds an edge and is queued; anything else adds a leaf node of its text and an edge to it |
| NetworkGraphView.VisitFromQueues | components/Visualizer.tsx:55-77 | the neighbour loop queues exactly the `object` neighbours, in order, and never a `cyclic` one |
| NetworkGraphView.ExpandedOnce | components/Visualizer.tsx:46-52 | the `visited` test makes the walk expand each id at most once, never one already visited, and every expanded id becomes a node |
| NetworkGraphView.ObjectGraphRootFirst | components/Visualizer.tsx:41-79 | the breadth-first walk gives one node per id and every edge leaves a node; the root object is the first node, and the walk expands distinct ids starting with the root's |
| NetworkGraphView.EmptyGraphIff | components/Visualizer.tsx:86 | "Empty Graph" is shown only for an empty dict or for a value neither case applies to |
| GraphNodeView.ShapeByPriority | components/Visualizer.tsx:191-321 | the glyph exactly for a visited text or a `cyclic` tag; otherwise a list node when `data` has `next`, else a tree node for `left`/`right`, else a generic node for a `children` array, else "Complex Object" |
| GraphNodeView.GraphNode | components/Visualizer.tsx:191-321 | a text already visited is drawn as the glyph; only `null` or an `object`-tagged value can fail to render; any other value is drawn |
| GraphNodeView.Linked | components/Visualizer.tsx:219-251 | a node with `next` is drawn as a list node with its value and caption; a `null` next ends the list, any other next is drawn after it with a fresh copy of `visited` |
| GraphNodeView.Binary | components/Visualizer.tsx:254-292 | a node with `left` or `right` is drawn as a tree node whose sides are the `left` side labelled `L` and the `right` side labelled `R` |
| GraphNodeView.Generic | components/Visualizer.tsx:295-318 | a node with a `children` array is drawn as a generic node |
| GraphNodeView.SiblingsDrawnAlike | components/Visualizer.tsx:309-313 | every child is drawn with its own copy of `visited`, so two equal siblings are drawn the same way |
| GraphNodeView.NullChildThrows | components/Visualizer.tsx:309-313 | a `null` child in `children` makes the whole node fail to render |
| GraphNodeView.DrawingSeesOnlyShortTexts | components/Visualizer.tsx:192-202 | how a value is drawn depends only on the visited texts no longer than its own text |
| GraphNodeView.AncestorTextsNeverMatch | components/Visualizer.tsx:192-202 | since ancestors' texts are longer than any descendant's, the visited-text check never fires; the glyph appears exactly for a `cyclic` tag |
| AppState.NextIndex | App.tsx:335 | Next moves to `min(i+1, last)`, and to 0 with no trace |
| AppState.PrevIndex | App.tsx:336 | Prev moves to `max(i-1, 0)` |
| AppState.StepsAtLine | App.tsx:239-245 | the highlighted steps are exactly the indices whose line is the selected line, strictly ascending |
| AppState.SelectionShown | App.tsx:230-236 | `App.CurrentStep` and `App.PrevStep` (App.tsx:230-236): in a valid state a current step is shown exactly when the trace has steps, and a previous step exactly when a step other than the first is shown |
| AppState.App.HighlightedSteps | App.tsx:239-245 | nothing is highlighted without a trace or a selected line |
| AppState.App.OnNext | App.tsx:335 | Next changes only the index, to `NextIndex`, and keeps the state valid; when enabled, the old current step becomes the previous step |
| AppState.App.OnPrev | App.tsx:336 | Prev changes only the index, to `PrevIndex`, and keeps the state valid; from a step with a predecessor, the old previous step becomes the current step |
| AppState.App.OnReset | App.tsx:338 | Reset selects step 0 and changes nothing else |
| AppState.App.OnSeek | App.tsx:337 | the slider selects the step it is moved to |
| AppState.App.SelectLine | App.tsx:356 | choosing a line in the editor sets the selected line and changes nothing else, keeping the state valid |
| AppState.App.ChangeMaxSteps | App.tsx:339 | the step limit becomes the clamped value of the typed text, at least 10 |
| AppState.App.HandleRun | App.tsx:156-181 | a run clears the inputs and runs with none; step 0 is selected when the trace has steps, otherwise none; a thrown error becomes an empty trace with its message or "An unexpected error occurred." |
| AppState.App.HandleInputSubmit | App.tsx:197-217 | without a trace nothing happens; otherwise the inputs gain exactly the new answer, the run is repeated with all of them, and the last new step is selected; a thrown error changes only the inputs |
| AppState.App.HandleResetIDE | App.tsx:219-228 | a confirmed reset clears the trace, index, selection and inputs and restores the limit 1000; otherwise nothing changes |
| AppState.NextWhenEnabled | components/Controls.tsx:79 | whenever Next is enabled it moves exactly one step forward |
| AppState.NextAtLastStays | components/Controls.tsx:79 | on the last step, where Next is disabled, Next would not move |
| AppState.PrevMatchesButton | components/Controls.tsx:71 | Prev moves one step back exactly when its button is enabled |
| AppState.NextReachesLast | App.tsx:335 | pressing Next from the first step reaches the last step after `length - 1` presses and stays there |
| AppState.ControlsShowSelection | components/Controls.tsx:76-93 | in a valid state with steps the slider position lies in its range and the counter reads back the one-based position |
| Controls.LeadingDigits | components/Controls.tsx:62 | `parseInt` reads the longest run of digits and stops at the first non-digit |
| Controls.ParseInt | components/Controls.tsx:62 | blank text parses to NaN; a negative result comes only from text whose first non-space character is `-` |
| Controls.ParseRendered | components/Controls.tsx:62 | the decimal text of any integer, followed by anything that does not continue the numeral, parses back to that integer |
| Controls.StepLimit | components/Controls.tsx:62 | the emitted limit is at least 10; unparsable input or 0 gives 100; any other number below 10 gives 10; otherwise the number |
| Controls.LimitRoundTrip | components/Controls.tsx:59-62 | a limit of at least 10 shown in the field reads back unchanged |
| Controls.CounterShowsPosition | components/Controls.tsx:76 | the counter starts with the one-based position when there are steps, and is `--` exactly when there are none |
| Controls.Counter | components/Controls.tsx:76 | the counter is `--` exactly when there are no steps, and otherwise ends with the total |
| Controls.SliderMax | components/Controls.tsx:92 | the slider's upper end is never negative and is the last index when there are steps |
| Controls.SliderValue | components/Controls.tsx:93 | the slider shows 0 for "no step selected" and the index otherwise |
| Markdown.SplitLines | App.tsx:12 | the pieces contain no line feed and joined with line feeds give back the text |
| Markdown.KindOf | App.tsx:48-78 | a trimmed line is blank exactly when empty; otherwise a `# ` or `## ` heading with the prefix removed, a `- ` item with the prefix removed, or a paragraph that starts with none of those prefixes, tested in that order |
| Markdown.Classify | App.tsx:45-78 | a line is blank exactly when it trims to nothing, and otherwise reads as its trimmed text with the block prefix removed |
| Markdown.Render | App.tsx:44-82 | the rendering loop with its final flush produces `Blocks` of the text's lines |
| Markdown.VisitLine | App.tsx:44-79 | one line of the loop: a blank line closes the open list; a heading or paragraph closes it and adds its block; an item joins the open list |
| Markdown.FlushList | App.tsx:16-25 | `flushList` turns the open items into one list when there are any |
| Markdown.ItemsKept | App.tsx:44-81 | every item line's text appears across the lists, in order, and nothing else does |
| Markdown.OthersKept | App.tsx:44-81 | every heading and paragraph line gives exactly its own block, in order |
| Markdown.Blocks | App.tsx:44-82 | since `flushList` adds a list only when items are open, no rendered list is empty |
| Markdown.ItemRunIsOneList | App.tsx:65-81 | consecutive item lines with nothing between them are rendered as a single list |

## Left out

- Pyodide and the interpreter boundary are not modelled. This covers `loadPyodide`, `runPythonAsync`, `pyodide.globals.set`, `JSON.parse`, `sys.settrace`, `exec`, `compile` and the `ast` pass. The traced program is given as the hook events it causes, so `ListTransformer` is not modelled: a list display arrives as a `TrackedList` object in the heap, while lists built any other way (comprehensions, `list(...)`, `sorted(...)`, `str.split()`) arrive as plain lists.
- A program that never terminates cannot be represented: the traced program is a finite sequence of events. In the source the step budget only stops recording (services/executionService.ts:148-149); `exec` keeps running, so a runaway loop never returns to `runCode`.
- Tracking.ListGet: slices with a step (`lst[::2]`) and slice bounds that are not integers are not modelled; neither are subscripts with `__index__`.
- Tracking.ListSet: extended slice assignment (with a step) is not modelled; what iterating the assigned value yields is an input.
- ResumeExtends, ResumeShowsEarlierSteps: the two runs are given as event sequences with a common beginning; that a rerun follows the same path as the first run up to the unanswered call is the interpreter's determinism, which is not modelled.
- `str(obj)`, `str(key)` and the formatted exception text are inputs, not computed. Captured standard output is an opaque string.
- Python floats and JavaScript number precision are left out. Numbers are unbounded integers, and `parseInt` results beyond 2^53 are not rounded.
- Controls.ParseInt: the radix-less parse is modelled for decimal and `0x` hexadecimal. Numbers of 10^21 or more, which JavaScript renders in exponent form, are not modelled.
- Floating-point geometry is left out: the circular layout, bar heights, timeline tick positions, the resize clamp and `hslToHex`.
- The tree view (`DataNode`) is left out. So are the hash-map panel's layout, the bar chart's drawing and the root node's styling: they are formatting with no state.
- React rendering, styling, timers, keyboard shortcuts and the drag payload plumbing are reduced to the state updates they trigger.
- `async` interleaving is not modelled. Each handler runs to completion as one step, so a second click while a run is pending is not covered.
- The inline formatting of `MarkdownRenderer` (`processInline`, a regular-expression split) is not modelled. Only the block grouping is.
- `components/Editor.tsx`, `components/ThemeSelector.tsx`, the theme presets and `constants.ts` are not part of this model: they are editor wiring and static data.
- GraphNodeView.GraphNode: a render that throws is `None`. The React error that would take down the whole view is not modelled.
- NetworkGraphView.NetworkGraph: no lemma exhibits a concrete cyclic object graph. The general lemmas state what the walk does for every object (each id expanded once, `cyclic` neighbours never queued), but not the exact node or edge list of a given graph.
- AppState.App.HandleInputSubmit: after a re-run that returns no steps, the old index is kept, even where it lies beyond the new trace. This is modelled as written, and `Valid` allows it because the new trace has no steps.

## Findings

| source | as written | input that shows it | evidently intended | confidence | as-written member | corrected member |
|---|---|---|---|---|---|---|
| services/executionService.ts:239-252 | the `except` handler appends the error step, then `finally` appends a final snapshot whenever a frame of the program ran, so the error step is no longer last and `runCode` never reports it | a one-line program that raises, such as `x = 1 / 0` | a program that raises is reported with its error text (the check at line 288 exists for this) | not executed; high that the error text is lost, medium on the intended fix | Transport.RaisedOneLinerNotReported | Transport.RaisedAlwaysReported |
| components/Visualizer.tsx:742-758 | the graph-view filter accepts arrays, deques, tuples, sets, structured objects and untagged objects, but rejects a value tagged `list`, which is what every list display of the traced program becomes | a program with `a = [1, 2, 3]`: `a` gets no panel in the graph view | lists are drawn as array panels | not executed; high | GraphView.TrackedListNeverInGraphView | GraphView.TrackedListShownWithLists |
