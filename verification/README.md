# Annotation templates for Java classes

This is a Dafny model of the annotation helper's core. For each class compiled from a
Java source file, the helper generates a comment block called a *template*. The template
lists the class's fields, its methods, and the methods reachable through its fields. The
helper then writes a copy of the source. Before each line that contains `class <name>` or
`interface <name>` for some loaded class name, the copy has the template of the first such
name in the map's iteration order.

The model covers these steps:

- **Classifier** decides which types are not worth listing the methods of.
- **Render** produces the field and method placeholder lines and assembles the template
  of one class.
- **AnnotationMap** models the `HashMap<String, String>` from class name to template as a
  sequence of entries with distinct keys, kept in insertion order.
- **Planner** adds the template of each loaded class to the map. The first template
  generated under a name is the one kept.
- **Splicer** copies the source lines. Before each line that mentions `class <key>` or
  `interface <key>`, it inserts the template of the first such key. `SpliceLines` is the
  line loop itself; `Splice` is its recursive reference definition.
- **Driver** rebuilds the map under simple names and puts the steps together. Java leaves
  the iteration order of a `HashMap` unspecified, so `Driver.AnnotateFile` takes that order
  as a parameter. The order can be any listing of the map's entries, each entry once. Every
  property of the annotated file is proved for every such order.

Reflected metadata (`Class`, `Field`, `Method`) is plain data in **Metadata**. The
template never looks deeper than a field's type's methods, so a cyclic type graph can be
cut off two levels down without changing any output.

## Model

| member | source | states |
|---|---|---|
| Classifier.LibraryTypesArePointless | src/AnnotationHelper.java:29-34 | A type whose qualified name is one of `java.`, `tester.` or `javalib.` followed by anything is skipped |
| Classifier.PointlessExactly | src/AnnotationHelper.java:29-34 | A type is skipped if and only if it is primitive, or a supertype of `String`, or its qualified name is one of the three library prefixes followed by anything |
| Classifier.UserTypesAreAnnotated | src/AnnotationHelper.java:29-34 | A non-primitive type unrelated to `String` whose name has no package, or lies under `javax.`, is never skipped. Only a literal prefix with its dot counts, so `javax.` is not caught by `java.` |
| Render.AnnotateField | src/AnnotationHelper.java:36-39 | A field placeholder begins with `... this.<field> ...  --` and ends with the simple name of the field's type, and has exactly the length of those parts together |
| Render.FieldAnnotationRoundTrip | src/AnnotationHelper.java:36-39 | When the field name has no space, the field name and the type's simple name can be read back from the placeholder |
| Render.AppendParametersJoins | src/AnnotationHelper.java:44-45 | The parameter loop appends the parameter types' simple names, each followed by one space, in declaration order |
| Render.MethodAnnotationShape | src/AnnotationHelper.java:41-50 | A method placeholder is `... this.` + prefix + name + `(` + the parameter simple names separated by single spaces + `) ...  --` + the return type's simple name, because cutting the builder's last character drops exactly the trailing space |
| Render.ParameterListRoundTrip | src/AnnotationHelper.java:43-48 | When no parameter's simple name is empty or holds a space, splitting the parameter list on spaces gives back the parameter types' simple names |
| Render.NoParameters | src/AnnotationHelper.java:43-48 | A method without parameters renders as `()` followed by `...  --` and the return type's simple name, so nothing is cut |
| Render.FieldAnnotations | src/AnnotationHelper.java:72-73 | One placeholder per declared field, in the order reflection returns them |
| Render.MethodAnnotations | src/AnnotationHelper.java:77-78 | One placeholder per declared method, in the order reflection returns them, all sharing the same prefix |
| Render.FieldLoopAppendsLines | src/AnnotationHelper.java:72-73 | The field loop appends each field placeholder followed by a newline |
| Render.MethodLoopAppendsLines | src/AnnotationHelper.java:77-78 | The method loop appends each method placeholder followed by a newline |
| Render.FieldPassAppendsLines | src/AnnotationHelper.java:84-92 | One pass of the outer loop appends the placeholders of the field's type's methods, prefixed with `<field>.`, or nothing when the type is skipped |
| Render.FieldMethodLoopAppendsLines | src/AnnotationHelper.java:82-93 | The nested loop appends the reachable method placeholders of every field, in field order, each followed by a newline |
| Render.ClassTemplateSections | src/AnnotationHelper.java:66-96 | A template consists of the `// In <name>` header, the fields section, the methods section with an empty prefix, the methods-of-fields section and the closing `*/`, in that order |
| Render.TemplateFrame | src/AnnotationHelper.java:66-96 | Every template starts with its header and the fields heading and ends with `*/` |
| Render.FieldMethodAnnotationsExactly | src/AnnotationHelper.java:82-93 | A line appears under "Methods of fields" if and only if it is the placeholder of a method of some field's type that is not skipped, prefixed with `<field>.` |
| Render.PointlessFieldsContributeNothing | src/AnnotationHelper.java:84-86 | When every field's type is skipped, the methods-of-fields section is empty |
| AnnotationMap.Put | src/AnnotationHelper.java:99 | Storing a value adds its key and keeps keys distinct. A new key is appended; an existing key is overwritten in place. The key then holds the new value, and every other key keeps its old value |
| Planner.AlreadyGenerated | src/AnnotationHelper.java:54-61 | The entry scan finds the class's qualified name exactly when that name is a key |
| Planner.GenerateAnnotations | src/AnnotationHelper.java:52-101 | An already-present name leaves the map unchanged. A new name adds one entry holding the class's template. No other key changes |
| Planner.GenerateLookup | src/AnnotationHelper.java:52-101 | After generating, a new name holds the class's own template, an existing name keeps its earlier template, and every other name keeps its value |
| Planner.PlanFromKeys | src/AnnotationHelper.java:140-145 | Running the class loop over a map adds exactly the names of the classes to its keys |
| Planner.PlanFromKeepsExisting | src/AnnotationHelper.java:140-145 | The class loop never changes a template already in the map |
| Planner.PlanFromFirstTemplate | src/AnnotationHelper.java:140-145 | A name not yet in the map ends up holding the template of the first class in the loop that carries it |
| Planner.PlanFirstWriteWins | src/AnnotationHelper.java:140-145 | The final map has one key per distinct class name, holding the template of the first class with that name |
| Planner.PlanEntries | src/AnnotationHelper.java:140-145 | Every entry of the final map pairs some loaded class's name with that class's template |
| Splicer.Declares | src/AnnotationHelper.java:181-183 | The larger of the two `indexOf` results differs from -1 exactly when the line contains `class <key>` or `interface <key>` |
| Splicer.BestEntry | src/AnnotationHelper.java:177-188 | The scan returns the first entry whose key the line declares, or -1 exactly when the line declares no key |
| Splicer.DeclaredKeyIsMatched | src/AnnotationHelper.java:177-188 | A line that declares any key is matched |
| Splicer.SpliceLines | src/AnnotationHelper.java:172-193 | The read loop yields the reference splice: each line preceded by the chosen template, if any. The output has one extra line per matched input line |
| Splicer.SpliceAppend | src/AnnotationHelper.java:172-193 | Splicing works line by line, so splicing two files one after the other gives the two spliced files one after the other |
| Splicer.MatchCountAppend | src/AnnotationHelper.java:172-193 | The number of matched lines of two files one after the other is the sum of their counts |
| Splicer.SpliceElements | src/AnnotationHelper.java:172-193 | Every output line is an input line or the template of some entry of the map |
| Splicer.SpliceLength | src/AnnotationHelper.java:172-193 | The output length is the input length plus the number of matched lines |
| Splicer.SplicePlacesLines | src/AnnotationHelper.java:172-193 | Every input line appears in the output at its computed position. A matched line has the chosen entry's template immediately before it. An unmatched line directly follows the previous input line |
| Splicer.PositionsIncrease | src/AnnotationHelper.java:172-193 | Input lines keep their relative order in the output |
| Splicer.SpliceWithoutDeclarations | src/AnnotationHelper.java:172-193 | A file in which no line declares a key is copied unchanged |
| Driver.SimpleName | src/AnnotationHelper.java:156 | The part after the last dot contains no dot, is the whole name when there is no dot, and is otherwise what follows some package part and a dot |
| Driver.SimpleNameOfQualified | src/AnnotationHelper.java:156 | Qualifying a dot-free name by any package and taking its simple name gives the name back |
| Driver.LastWithSimpleNameNone | src/AnnotationHelper.java:152-157 | No entry's key has simple name `s` exactly when the last-write search finds nothing |
| Driver.LastWithSimpleNameSome | src/AnnotationHelper.java:152-157 | The last-write search returns the value of an entry with simple name `s` that no later entry shares |
| Driver.RebuildLastWriteWins | src/AnnotationHelper.java:152-157 | Under each simple name, the rebuilt map holds the value of the last entry with that simple name, and nothing under a name that no entry has |
| Driver.RebuildKeys | src/AnnotationHelper.java:152-157 | The rebuilt keys are exactly the simple names of the original keys |
| Driver.RebuildValues | src/AnnotationHelper.java:152-157 | Every rebuilt value is the value of some original entry |
| Driver.RebuildDotFree | src/AnnotationHelper.java:152-157 | For keys without a dot, the rebuilt map is the original map, entry for entry |
| Driver.RebuiltPlanIsPlan | src/AnnotationHelper.java:140-157 | Classes are loaded by the base name of their class file, so their names have no dot. For such names the simple-name map equals the map the splice uses |
| Driver.AnnotateFile | src/AnnotationHelper.java:172-193 | For any iteration order of the map, the annotated file has one line per input line plus one per matched line |
| Driver.QualifiedNamesNeverMatch | src/AnnotationHelper.java:179-183 | A fact about the substring test only: a key that contains a dot never occurs in a line without a dot, so for any iteration order the splice leaves such lines unchanged |
| Driver.OrderedEntryIsTemplate | src/AnnotationHelper.java:140-145 | Every entry the iteration visits pairs a loaded class's name with that class's template |
| Driver.OrderHasClassKey | src/AnnotationHelper.java:140-145 | The iteration visits an entry under the name of every loaded class |
| Driver.AnnotatedLinesComeFromSourceOrTemplates | src/AnnotationHelper.java:172-193 | For any iteration order, every line of the annotated file is a source line or the template of a loaded class |
| Driver.DeclaredClassesGetTemplates | src/AnnotationHelper.java:172-193 | In every iteration order, a line that declares a loaded class is matched, and the line immediately before it in the output is the template of a loaded class |
| Driver.OnlyDeclaredNameIsChosen | src/AnnotationHelper.java:177-188 | When a line declares only one class name, the search picks that name's entry in every iteration order, and the entry holds the first template generated for the name |
| Driver.OnlyDeclaredClassGetsItsTemplate | src/AnnotationHelper.java:177-192 | When a line declares only one class name, in every iteration order the line immediately before it in the output is the template of the first class loaded under that name |
| Examples.PointTemplate | src/AnnotationHelper.java:66-96 | A class `Point` with two `int` fields and no methods gets both field lines and two empty method sections |
| Examples.FooSplice | src/AnnotationHelper.java:172-193 | In a three-line file declaring `Foo`, the template goes before the declaration line and nowhere else |

## Left out

- Compiling the file, creating the class loader, listing and deleting class files (src/AnnotationHelper.java:108-145): these are I/O. The model takes the classes that were loaded, in listing order, as a parameter.
- An exception part-way through loading (src/AnnotationHelper.java:147-150): the map keeps the templates of the classes loaded so far. In the model this is `Plan` of a prefix of the class list.
- Reading the file with `readLine` and writing the `-annotated.java` copy (src/AnnotationHelper.java:168-172, 194-209): the model works on the sequence of lines read and returns the sequence of lines written, each of which the writer ends with a newline.
- Console output (src/AnnotationHelper.java:63, 116-121, 159-163): printing has no effect on the result.
- `HashMap` iteration order (src/AnnotationHelper.java:179): Java leaves it unspecified. The model takes it as a parameter, which may be any listing of the map's entries in which each entry appears once. The splice takes the first matching key in that order. Which key wins on a line that declares several keys therefore depends on the order, and only the order-independent facts are stated about such lines.
- A class in a named package stops the whole run. The compiler call at src/AnnotationHelper.java:113 writes `Foo.class` next to the source. `loadClass("Foo")` at line 142 then finds a class whose real name is `pkg.Foo` and throws `NoClassDefFoundError`. That is an `Error`, which the `catch (Exception)` at line 147 does not catch, so no `-annotated.java` file is written. The model has no exceptions. `Driver.QualifiedNamesNeverMatch` only states what the substring test does with dotted keys; it does not describe a run that could reach the splice with such keys.
- `Class.isAssignableFrom(String.class)`: it is a flag on the type, not a computed subtype relation.
- The simple-name map of src/AnnotationHelper.java:152-157 is built and printed but not used by the splice. The model proves what it holds (`Driver.RebuildLastWriteWins`), and proves that it equals the spliced map for every class the loader can load (`Driver.RebuiltPlanIsPlan`).
- Nested classes, enums and records: the loader gives nested classes names like `Outer$Inner`, which no `class Inner` line contains. A line such as `enum Color {` or `record P(int x)` contains neither `class Color` nor `interface Color`. So none of these gets a template, although the map holds one for each loaded enum and record. The model reproduces this through the literal substring test.
- Order inside a template: the Fields, Methods and Methods-of-fields sections list members in whatever order `getDeclaredFields` and `getDeclaredMethods` return (src/AnnotationHelper.java:72, 77, 82, 89). Java leaves that order unspecified, so the model takes the field and method sequences as given and does not relate them to the order of declaration in the source.
- Substring matching: `class Foo` also matches `class FooBar`, and whichever key comes first in map order wins. This is modelled as written and not treated as a defect.
- The user interface (FundiesHelper) is not part of this model. Neither is src/dude/makiah/AnnotationHelper.java, a short stub that calls `Class.forName("")` and prints declared methods. Method-level templates, constructor placement and line-offset bookkeeping are also left out: this version of the helper does not implement them.
- Render.AnnotateMethod, Render.ClassTemplate and the three builder loops have no contracts of their own. What they build is stated by `Render.MethodAnnotationShape`, `Render.ClassTemplateSections` and the three `…LoopAppendsLines` lemmas.
