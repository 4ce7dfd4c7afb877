# yapfc component tree, writers and viewer state, in Dafny

yapfc is a small Qt/VTK front end for the CalculiX finite-element solver. The
user builds an analysis as a tree of components. Fixed category rows
("Meshes", "Materials", …, "Steps", "Analyses") hold writer rows. Each writer
holds one block of CalculiX input text, and the mesh is shown in a VTK viewer.
This project models the three files that hold the program's own logic and
proves what they do:

- `writers.dfy` (module `Writers`, from `yapfc/model.py`):
  - the `Label` category row and the `CcxWriter` family, with the ten
    subclasses folded into a `WriterKind`;
  - the stored text each constructor installs, and its setter and getter;
  - the inp string of an analysis writer;
  - the `refOnDemand` decorator;
  - the label derivation, which splits the string form of the writer's type at
    "." and at "Sub". It is written out as operations on strings and proved to
    give each class its label.
- `editor.dfy` (module `Editor`, from `yapfc/mainWindow.py`):
  - the item model as an ordered forest of `Node`s, whose rows are the `Label`
    and `CcxWriter` objects. A row is addressed by its path of row numbers,
    which stands for `item.parent()`/`item.row()`;
  - the pre-order listing (`list_children`, `list_model_children`);
  - the initial tree;
  - the context-menu table and the `addItem` dispatch;
  - `addItem`, `addBoundary` and `removeItem` on a `MainWindow` class whose
    fields are the tree and the `components` list.
- `viewer.dfy` (module `Viewer`, from `yapfc/viewer.py`):
  - cell highlighting on a grid abstracted to its cell count and cell colours;
  - the pick-miss path of the left-button handler;
  - the renderer's actors as objects with a representation, an edge flag and a
    point size;
  - `AddActor`, `RemoveActor`, `GetAllActors` and `SetRepresentation`, with
    the `ShowEdges` flag.

Behaviour of the code as written that the model keeps and states:

- A writer's label comes from its class name, not from the text it was created
  with. `InitialConditionSubWriter` is labelled "InitialCondition", so it never
  matches the menu case "Initial Condition" and gets no menu at all
  (`Editor.WriterMenu`).
- The plain base class `CcxWriter` has no "Sub" in its name, so its label
  keeps the type string's closing quote: "CcxWriter'>" (`Writers.BaseLabel`).
- "Constraints" and "Amplitudes" are dispatched by `addItem`, but the context
  menu never offers "Add Item" on them (`Editor.MenuTable`).
- A row whose label `addItem` does not know leaves `new_item` unbound. The
  model returns `UnboundLocalError` and changes nothing.
- With no selection, `open_context_menu` reads `self.root_item`, which the
  window never sets. The model returns `AttributeError`.
- `removeItem` takes the row out of the tree first and then calls
  `components.remove`. For an analysis, a boundary or a category row, that
  call raises `ValueError` after the row is already gone
  (`Editor.MainWindow.RemoveItem`).
- `SetRepresentation` assigns `ShowEdges` only inside its loop over the
  actors. With no actors, or with a type code outside 1..4, the flag is left
  as it was.

The window keeps an invariant (`Editor.WindowInvariant`):

- `components` holds distinct writers, none of them an analysis or a boundary;
- every one of them is a row of the tree, and every such writer row of the
  tree is one of them;
- no object is a row of the tree twice;
- the only rows below a writer are boundaries.

The new window satisfies the invariant. `AddItem` and `AddBoundary` preserve
it. `RemoveItem` preserves it when the removed row is a writer, and under the
invariant it raises `ValueError` exactly when the row is not a component. The viewer keeps its own invariant
(`Viewer.VtkViewer.Valid`): the renderer holds each actor at most once, and
while `ShowEdges` is set every actor shows its edges.

## Model

| member | source | states |
|---|---|---|
| Writers.AfterLast | yapfc/model.py:47 | `split(".")[-1]`: the longest suffix free of "."; when it is not the whole string, a "." stands just before it |
| Writers.BeforeFirst | yapfc/model.py:47 | `split("Sub")[0]`: a prefix of the string with no occurrence of "Sub" starting inside it; when shorter than the string, "Sub" occurs right after it |
| Writers.DerivedLabel | yapfc/model.py:47-48 | for every writer class and any module path, the label derived from the type's string form is the class name without "SubWriter" (the base class keeps "CcxWriter'>") |
| Writers.BaseLabel | yapfc/model.py:47-48 | the base class `CcxWriter` has no "Sub", so its label is "CcxWriter'>" |
| Writers.MeshLabel | yapfc/model.py:68 | MeshSubWriter is labelled "Mesh" |
| Writers.MaterialLabel | yapfc/model.py:113 | MaterialSubWriter is labelled "Material" |
| Writers.SectionLabel | yapfc/model.py:134 | SectionSubWriter is labelled "Section" |
| Writers.ConstraintLabel | yapfc/model.py:140 | ConstraintSubWriter is labelled "Constraint" |
| Writers.ContactLabel | yapfc/model.py:146 | ContactSubWriter is labelled "Contact" |
| Writers.AmplitudeLabel | yapfc/model.py:152 | AmplitudeSubWriter is labelled "Amplitude" |
| Writers.InitialConditionLabel | yapfc/model.py:158 | InitialConditionSubWriter is labelled "InitialCondition", without a space |
| Writers.StepLabel | yapfc/model.py:164 | StepSubWriter is labelled "Step" |
| Writers.BoundaryLabel | yapfc/model.py:172 | BoundarySubWriter is labelled "Boundary" |
| Writers.AnalysisLabel | yapfc/model.py:199 | AnalysisSubWriter is labelled "Analysis" |
| Writers.LabelFromClassName | yapfc/model.py:64-66 | `getTextLabel()` of any writer is the label derived from its class name, whatever display text it was given |
| Writers.PlaceholderTemplates | yapfc/model.py:140-162 | Constraint, Contact, Amplitude and InitialCondition writers hold exactly "**CONSTRAINT", "**CONTACT", "**AMPLITUDE" and "**INITIALCONDITION" |
| Writers.MaterialTemplateHead | yapfc/model.py:117-127 | the material template starts with "*Material, Name=ABS" |
| Writers.SectionTemplateMaterial | yapfc/model.py:138 | the section template ends with "Material=ABS", the material the material template defines |
| Writers.StepTemplateHead | yapfc/model.py:168-170 | the step template starts with "*Step" |
| Writers.BoundaryTemplateTail | yapfc/model.py:176-197 | the boundary template ends with "*End step", closing the step |
| Writers.ClassLabel | yapfc/model.py:47-48 | the label `str(type(self)).split(".")[-1].split("Sub")[0]`, on the type string built from a module path and class name; its meaning is stated by `Writers.DerivedLabel` and the per-class label lemmas |
| Writers.Template | yapfc/model.py:68-197 | the text each writer class's constructor stores; its contents are stated by `Writers.PlaceholderTemplates`, `Writers.MaterialTemplateHead`, `Writers.SectionTemplateMaterial`, `Writers.StepTemplateHead` and `Writers.BoundaryTemplateTail` |
| Writers.RefOnDemand | yapfc/model.py:11-23 | the wrapped function is called without `ref` and `deepCopyRef`; no copy iff `ref` is given and falsy; a shallow copy iff a copy is made and `deepCopyRef` is given and falsy; otherwise a deep copy |
| Writers.RefOnDemandIgnoresFlags | yapfc/model.py:14-21 | calls that differ only in `ref`/`deepCopyRef` return the same value, which is the value without the flags |
| Writers.Label.constructor | yapfc/model.py:27-40 | a category row's `getTextLabel()` is its constructor text and its `getStoredText()` is "" |
| Writers.CcxWriter.constructor | yapfc/model.py:43-48 | a new writer keeps its kind and text, holds its class's template (empty for the base class and analyses, lines 68-205), and has an empty inp string |
| Writers.CcxWriter.SetStoredText | yapfc/model.py:56-62 | after `setStoredText(t)`, `getStoredText()` returns `t` and nothing else changes |
| Writers.CcxWriter.SetInpString | yapfc/model.py:204-205 | only the inp string changes, to the new value |
| Editor.Flatten | yapfc/mainWindow.py:27-41 | the pre-order listing of a forest of rows; what it lists and in which order is stated by `Editor.PreOrder`, and `Editor.ListForest` proves the source's loop computes it |
| Editor.ListForest | yapfc/mainWindow.py:28-33 | the append/extend loop over the rows yields the pre-order listing of the forest |
| Editor.ListChildren | yapfc/mainWindow.py:27-33 | `list_children` returns the pre-order listing of the rows below the item |
| Editor.ListModelChildren | yapfc/mainWindow.py:35-41 | `list_model_children` returns the pre-order listing of the whole model |
| Editor.PreOrder | yapfc/mainWindow.py:27-41 | the listing shows each row at its position; every position is a row's; distinct rows have distinct positions; a row comes before its descendants and before later siblings' trees |
| Editor.AppendChildAt | yapfc/mainWindow.py:255-265 | `appendRow` on the row at a path, as `addItem` (line 255) and `addBoundary` (line 265) call it; stated by `Editor.AppendChildAtSpec` and `Editor.AppendKeepsPaths` |
| Editor.RemoveAt | yapfc/mainWindow.py:268-272 | `removeRow` on the parent of the row at a path, or on the model for a top-level row; stated by `Editor.RemoveAtSpec` and `Editor.RemoveAtParent` |
| Editor.AppendChildAtSpec | yapfc/mainWindow.py:255 | `appendRow` makes the new row the parent's last child, keeps the parent's item, and adds exactly the new rows to the listing |
| Editor.AppendKeepsPaths | yapfc/mainWindow.py:255 | every row already in the tree keeps its path after an append |
| Editor.RemoveAtSpec | yapfc/mainWindow.py:267-273 | removing a row takes exactly that row and the rows below it out of the listing |
| Editor.RemoveAtParent | yapfc/mainWindow.py:268-269 | removing a child row leaves its parent with the same item and the children other than that row |
| Editor.AppendKeepsShape | yapfc/mainWindow.py:255 | appending a childless row below a category, or a boundary anywhere, keeps "only boundaries below writers" |
| Editor.RemoveKeepsShape | yapfc/mainWindow.py:267-273 | removing a row keeps "only boundaries below writers" |
| Editor.KindFor | yapfc/mainWindow.py:244-253 | the writer class the `match` in `addItem` builds for a label, none when no case matches; stated by `Editor.DispatchTable` |
| Editor.MenuActions | yapfc/mainWindow.py:193-224 | the context-menu entries for a label, in menu order; stated by `Editor.MenuTable` and `Editor.WriterMenu` |
| Editor.DispatchTable | yapfc/mainWindow.py:244-253 | `addItem` builds a writer iff the label is one of the eight model categories or "Analyses"; never a base writer or a boundary; an analysis only below "Analyses" |
| Editor.MenuTable | yapfc/mainWindow.py:193-224 | "Add Item" iff one of the seven categories (not Constraints or Amplitudes); "Remove Item" iff one of seven writer labels; "Add Boundary" iff "Step"; "Run Analysis" iff "Analysis"; at most two entries; "Add Item" only where a kind is dispatched |
| Editor.WriterMenu | yapfc/mainWindow.py:209-224 | writer rows get "Remove Item" iff Mesh, Material, Section, Contact, Step or Analysis; an empty menu iff base, Constraint, Amplitude, InitialCondition or Boundary; never "Add Item" |
| Editor.WriterRowIsNoCategory | yapfc/mainWindow.py:244-253 | no writer row's label is a category `addItem` dispatches on |
| Editor.BoundaryName | yapfc/mainWindow.py:262 | the proposed name `f"Boundary{nextIndex}"`; its digits are stated by `Editor.Decimal` and `Editor.DecimalRoundTrip` |
| Editor.Decimal | yapfc/mainWindow.py:262 | the row count in the default boundary name is a non-empty string of digits without a leading zero |
| Editor.DecimalRoundTrip | yapfc/mainWindow.py:262 | the digits of the default boundary name read back as the parent's row count |
| Seqs.IndexOf | yapfc/mainWindow.py:270 | the first index at which the item occurs: it holds the item and no earlier index does |
| Editor.RemoveFirst | yapfc/mainWindow.py:270 | `list.remove` cuts out the first occurrence of the item and keeps the other elements in order; the list is one shorter |
| Editor.RemoveFirstDistinct | yapfc/mainWindow.py:270 | on a list without duplicates, `remove` leaves a list without duplicates that no longer holds the item and still holds every other element |
| Editor.ComponentsFollowAppend | yapfc/mainWindow.py:255-257 | when a new row joins the listing and joins `components` exactly when it is a component, `components` stays distinct and still holds exactly the component rows |
| Editor.AppendKeepsInvariant | yapfc/mainWindow.py:255-257 | appending a new row below a category (joining `components` exactly when it is a component) or a boundary keeps the window invariant, both directions of "components are the component rows" included |
| Editor.RemoveKeepsInvariant | yapfc/mainWindow.py:267-273 | removing a writer's row and, if listed, its first entry in `components` keeps the window invariant, both directions included |
| Editor.InitialInvariant | yapfc/mainWindow.py:112-135 | the starting tree lists its ten labels in order, one row each; with distinct labels it satisfies the invariant with no components |
| Editor.MainWindow.constructor | yapfc/mainWindow.py:112-135 | the tree is "Model" with Meshes, Materials, Sections, Constraints, Contacts, Amplitudes, Initial Conditions, Steps as childless children, then "Analyses"; no components; the invariant holds |
| Editor.MainWindow.ContextMenu | yapfc/mainWindow.py:180-224 | with a selection, the menu is the table's entries for its label; without one, `AttributeError` |
| Editor.MainWindow.AddItem | yapfc/mainWindow.py:238-257 | a cancelled or empty dialog changes nothing; an unknown label raises `UnboundLocalError` and changes nothing; otherwise one fresh writer of the dispatched kind with its template becomes the last child, and joins `components` unless it is an analysis; the invariant is kept |
| Editor.MainWindow.AddBoundary | yapfc/mainWindow.py:259-265 | proposes "Boundary" followed by the row's child count; unless cancelled or empty, a fresh boundary writer becomes the last child; `components` never changes; the invariant is kept |
| Editor.MainWindow.RemoveItem | yapfc/mainWindow.py:267-273 | the row leaves the tree in every case; an item in `components` is removed from it once; otherwise `ValueError` with the row already gone; under the invariant the call succeeds iff the row is a component |
| Viewer.HighlightColors | yapfc/viewer.py:26-30 | the colour the loop gives each cell; stated by `Viewer.HighlightCell` and `Viewer.HighlightCounts` |
| Viewer.HighlightCell | yapfc/viewer.py:18-33 | the new cell scalars have one colour per cell; entry i is red iff i is the picked id, otherwise white |
| Viewer.HighlightCounts | yapfc/viewer.py:26-30 | exactly one cell is red iff the id is a cell of the grid, none otherwise; all others are white |
| Viewer.LeftButtonPress | yapfc/viewer.py:47-52 | the picked id is highlighted even on a miss, and a miss (-1) leaves every cell white |
| Viewer.VtkViewer.constructor | yapfc/viewer.py:66 | a new viewer has no actors and shows edges |
| Viewer.VtkViewer.AddActor | yapfc/viewer.py:133-138 | edges are switched on iff `ShowEdges` is set (else unchanged); the renderer then holds the actor once, at the end if new; the invariant is kept |
| Viewer.Without | yapfc/viewer.py:140-142 | the actor list without one actor: holds exactly the other actors, one fewer when it was held, unchanged when it was not |
| Viewer.WithoutAt | yapfc/viewer.py:140-142 | from a list holding the actor only at index k, `Without` cuts out index k and keeps the rest in order |
| Viewer.WithoutDistinct | yapfc/viewer.py:140-142 | from a list without duplicates, `Without` cuts out the actor's one entry and keeps the rest in order |
| Viewer.VtkViewer.RemoveActor | yapfc/viewer.py:140-142 | the renderer no longer holds the actor; a held actor's one entry is cut out and the others stay in order; `ShowEdges` is unchanged; the invariant is kept |
| Viewer.VtkViewer.GetAllActors | yapfc/viewer.py:144-151 | returns the renderer's actors in order |
| Viewer.VtkViewer.SetRepresentation | yapfc/viewer.py:153-181 | every actor gets the representation the code names (points of size 4, wireframe, surface without or with edges); all actors then share it; `ShowEdges` becomes `aTyp == 4` when there is an actor and a valid code, else is unchanged |
| Viewer.Represented | yapfc/viewer.py:162-179 | what one pass of the loop does to an actor's look for each code; stated by `Viewer.RepresentedIdempotent`, `Viewer.RepresentedLastWins` and `Viewer.VtkViewer.SetRepresentation` |
| Viewer.ShowEdgesAfter | yapfc/viewer.py:159-179 | the `ShowEdges` flag after `SetRepresentation`: `aTyp == 4` when the loop runs with a valid code, else unchanged; stated by `Viewer.VtkViewer.SetRepresentation` |
| Viewer.RepresentedIdempotent | yapfc/viewer.py:153-179 | setting the same representation twice is the same as setting it once |
| Viewer.RepresentedLastWins | yapfc/viewer.py:153-179 | a later valid representation code decides the representation, and for codes 3 and 4 the edge visibility too |

## Left out

- Qt plumbing (menus, dock, signal wiring, `QInputDialog`): the dialog's result is the `ok` and `text` parameters of `AddItem` and `AddBoundary`, and the menu is returned rather than shown.
- VTK rendering, picking and the camera (`vtkCellPicker`, `ResetCamera`, `UpdateView`): the picked cell id is a parameter of `LeftButtonPress`, and the pick position is only printed.
- The viewer reaches the mesh through `self.parent.parent.mesh.getMesh()`. The window passes `self.mesh`, still `None`, as the viewer's parent (yapfc/mainWindow.py:151), and the mesh class has no `getMesh`. The model passes the grid to `HighlightCell` directly.
- The trihedron viewport computations use floating-point division and are not modelled.
- `runAnalysis` (yapfc/mainWindow.py:275-278) only prints `comp.get_text()` for each component, and no writer class defines `get_text`; it is not modelled.
- `double_click_on_writer` and the text and material editors it opens: yapfc/dialogs.py is not part of this model.
- `open_mesh`, yapfc/mesh.py, yapfc/runner.py and the earlier prototypes are file I/O, process launches or superseded code, and are not part of this model.
- `print` output in `left_button_press_event` and `runAnalysis` is not modelled.
- Qt row objects beyond their label, stored text and children (editability, display text rendering, model indexes) are not modelled.
- Writers.RefOnDemand: results here are immutable values, so a copy is recorded as a tag (none, shallow, deep) rather than as a new object with its own identity.
- Editor.MainWindow.RemoveItem: `Valid()` is promised only when the removed row is a writer; removing a category row can leave components whose rows were below it.
- The default texts of the `Label` and writer constructors (yapfc/model.py:27, 43, 69-200) are not modelled: every call in the window passes a text, so the constructors take it as a required parameter.
- Viewer.VtkViewer.SetRepresentation: the point size is a `real`, not a C `double`.
- The dead `nextIndex` computation at the head of `addItem` (yapfc/mainWindow.py:239-240) has no effect and is not modelled.
