# ImHex loader-script commands, modelled in Dafny

ImHex runs Python loader scripts against the file it has open. The `_imhex` module gives those
scripts a few native commands. This project models the four commands that hold logic, from
`source/helpers/loader_script_handler.cpp`:

- `add_struct(T)` and `add_union(T)`. They call the script type `T` with no arguments and check
  that the runtime type of the object it returns extends `ImHexType` directly. The same check is
  made on the object each annotated member type returns. They build a pattern-language
  declaration from the runtime type names: `struct <Name> {`, then one line
  `   <MemberType> <name>;` per annotation in insertion order, then `};`. The text is posted to the
  host as one `AppendPatternLanguageCode` event.
- `patch(address, bytes)`. It checks the bytes and the start address, then issues one write to
  the data provider.
- `add_bookmark(address, size, name[, comment])`. The format `"K|n|s|s"` makes the address, the
  size and the name required, because the last `|` decides how many arguments are required. The
  command checks that the comment is present, copies the name and the comment into a bookmark and
  posts one `AddBookmark` event.

The Python objects are modelled by what the C code reads from them (`PyObjects`):

- A `TypeObject` has a runtime name (`tp_name`), the name of its direct base (`tp_base`) and a
  type dictionary holding the `__annotations__` entry.
- It also records what a zero-argument call does: the call raises, returns an instance of the
  type itself, or returns an object of another type.

`Instantiate` is the partial operation `PyObject_CallObject(t, nullptr)`, seen through the
runtime type of its result.

The modules:

- `Common`: `Option`, `Result`, and the fixed-width types `u8`, `u16` and `u64`.
- `PyObjects`: the object model and the `ImHexType` direct-base check.
- `PatternText`: the declaration text, and a reader (`ParseDeclaration`) that recovers every
  printable declaration from its text.
- `StructureCodegen`: `ResolveMembers` and `ResolveDeclaration`, two reference functions that say
  which declaration a call describes or which exception it raises. `BuildStructureCode` is the
  source's checks, and `BuildMembersCode` its loop, which grows `code` with a `u16` counter. Both
  are proved equal to the reference functions on every input whose loop ends.
- `ScriptHandler`: the event bus and the data provider, as logs of what they were asked to do.
  It also holds `CreateStructureType` and the `LoaderScript` class with the script commands.

The exceptions are the ones the code raises, which are not always the kind their cause suggests:

- A missing argument and a failing instantiation of the outer type raise `BadArgument`, not
  separate argument and instantiation errors.
- A structure type whose class body annotates no member raises `BadArgument` as well. Python
  creates `__annotations__` in a class only when the body holds an annotation, so the entry is
  missing. Only an explicit empty `__annotations__` dictionary gives a declaration with no
  members.
- A member type whose constructor raises is meant to give the same `TypeError` as a member with
  the wrong base, and the model gives it. As written, the code first calls `Py_DECREF` on the null
  result (see "## Findings"); `CheckMemberInstanceAsWritten` models that path.
- `patch` raises `TypeError` for missing or empty bytes and `IndexError` for an address out of
  range.
- `add_bookmark` raises `BadArgument` when fewer than three arguments are given, and `IndexError`
  ("address out of range") when the comment is missing. The source also tests the name for null,
  but a parsed name is never null, so that test never fires.
- The exception messages are the source's own strings.

## Model

| member | source | states |
|---|---|---|
| `PyObjects.ExtendsImHexType` | source/helpers/loader_script_handler.cpp:86 | holds exactly when the direct base exists and its name is `ImHexType`; the same test is made on member instances at line 123 |
| `PyObjects.AsCString` | source/helpers/loader_script_handler.cpp:116 | the name a `const char*` carries is the longest NUL-free prefix of the Python string: it equals the string when the string holds no NUL, and otherwise stops right before the first NUL |
| `PyObjects.Instantiate` | source/helpers/loader_script_handler.cpp:78-82 | a zero-argument call yields no object exactly when the constructor raises; a plain constructor yields an instance of the type itself; a constructor returning another object yields that object's runtime type |
| `PatternText.DeclarationLines` | source/helpers/loader_script_handler.cpp:111-135 | the declaration text is the header line, then one line per member in order, then `};`, each line ended by a newline |
| `PatternText.DeclarationRoundTrip` | source/helpers/loader_script_handler.cpp:111-135 | reading an emitted declaration back gives its keyword, its type name and every member (type name and name) in order, when no name holds a newline and the keyword and member type names hold no space |
| `PatternText.EmptyDeclaration` | source/helpers/loader_script_handler.cpp:111-135 | the text of a declaration without members is exactly `keyword + " " + name + " {\n};\n"` |
| `StructureCodegen.ResolveMember` | source/helpers/loader_script_handler.cpp:116-130 | succeeds exactly when the member type is present and instantiates to an object whose runtime type extends `ImHexType`; it then gives that runtime type's name and the annotation's name up to its first NUL; every failure, including a raising constructor, is the member `TypeError` |
| `StructureCodegen.NulEndsMemberName` | source/helpers/loader_script_handler.cpp:116-130 | an annotation named `"a\0b"` with an accepted type `u8` emits the member line `   u8 a;` |
| `StructureCodegen.ResolveMembers` | source/helpers/loader_script_handler.cpp:113-133 | succeeds exactly when every annotation is accepted; it then gives one member per annotation, in order, named by the instantiated member's runtime type name and the annotation name up to its first NUL; any failure is the member `TypeError` |
| `StructureCodegen.ResolveDeclaration` | source/helpers/loader_script_handler.cpp:72-135 | the reference outcome: an accepted call passes every check before the loop, carries the keyword and the instance's runtime type name, and has exactly the resolved members; once the loop is reached it succeeds exactly when every member is accepted; every failure is `BadArgument`, the class `TypeError` or the member `TypeError` |
| `StructureCodegen.DeclarationCode` | source/helpers/loader_script_handler.cpp:111-135 | the reference text: it succeeds exactly when the reference outcome does, is then that declaration's text, and otherwise carries the same exception |
| `StructureCodegen.BuildMembersCode` | source/helpers/loader_script_handler.cpp:111-135 | the header line, the loop with its `u16` counter and the closing line give exactly the declaration text of the resolved members, or the member `TypeError` as soon as one member is rejected, on every list whose loop ends (`MemberLoopEnds`) |
| `StructureCodegen.BuildStructureCode` | source/helpers/loader_script_handler.cpp:71-135 | the checks followed by the member loop return exactly the reference declaration text, or exactly the reference exception, on every input whose loop ends (`AnnotationLoopEnds`) |
| `StructureCodegen.IncrementU16` | source/helpers/loader_script_handler.cpp:113 | `i++` on the `u16` counter adds one below 65535 and wraps 65535 to 0 |
| `StructureCodegen.CounterAfterWraps` | source/helpers/loader_script_handler.cpp:113 | after `n` iterations the counter holds `n` modulo 65536 |
| `StructureCodegen.CounterNeverReachesLongList` | source/helpers/loader_script_handler.cpp:113 | with more than 65535 annotations the loop condition holds after every iteration, so the guard alone never ends the loop; only a rejected member's early return does |
| `StructureCodegen.EndlessLoopInputs` | source/helpers/loader_script_handler.cpp:113-133 | on an input `AnnotationLoopEnds` excludes, the outer checks pass, there are more than 65535 annotations, and after any number of iterations the counter points at an accepted member, so the loop never ends |
| `StructureCodegen.AllAcceptedLongListLoops` | source/helpers/loader_script_handler.cpp:113-133 | an `ImHexType` child whose more than 65535 annotations are all accepted is such an input, though its reference declaration exists |
| `StructureCodegen.LongStructureLoopsForever` | source/helpers/loader_script_handler.cpp:113-133 | a concrete structure type with 65536 accepted annotations under distinct names (`m`, `mm`, …), as a real `__annotations__` dictionary can hold, is such an input |
| `StructureCodegen.EmptyAnnotationsDeclaration` | source/helpers/loader_script_handler.cpp:96-135 | a structure type that extends `ImHexType` and whose `__annotations__` dictionary is empty yields exactly `keyword + " " + name + " {\n};\n"`, with `name` the instance's runtime type name |
| `StructureCodegen.CounterCountsShortList` | source/helpers/loader_script_handler.cpp:113 | up to 65535 iterations the counter equals the iteration count, so a list of at most 65535 annotations is walked to its end |
| `StructureCodegen.OuterBaseRejected` | source/helpers/loader_script_handler.cpp:86-89 | an instance whose type's direct base is missing or not `ImHexType` fails with the class `TypeError`, whatever its dictionary and annotations hold |
| `StructureCodegen.MissingMetadataRejected` | source/helpers/loader_script_handler.cpp:72-107 | no argument, a raising constructor, no type dictionary, or a missing or non-dictionary `__annotations__` entry each fail with `BadArgument` |
| `StructureCodegen.RejectedMemberRejectsAll` | source/helpers/loader_script_handler.cpp:117-128 | in the reference outcome, one rejected annotation at any position makes the whole declaration fail with the member `TypeError`; the source reaches that outcome whenever its loop ends |
| `StructureCodegen.AcceptedDeclaration` | source/helpers/loader_script_handler.cpp:111-135 | an accepted call names the instance's runtime type and lists every annotation in order under its instantiated type's runtime name, both types extending `ImHexType`; its text reads back as that declaration |
| `StructureCodegen.StructAndUnionAgree` | source/helpers/loader_script_handler.cpp:142-148 | `struct` and `union` accept and reject the same arguments with the same exception, and their texts agree after the keyword |
| `StructureCodegen.CheckMemberInstanceAsWritten` | source/helpers/loader_script_handler.cpp:122-127 | as written: a null member instance leads to `Py_DECREF` of null; a member instance whose type does not extend `ImHexType` raises the member `TypeError`; any other passes under its runtime type name |
| `StructureCodegen.RaisingMemberDecRefsNull` | source/helpers/loader_script_handler.cpp:122-127 | as written, a member whose constructor raises reaches `Py_DECREF` on a null pointer |
| `ScriptHandler.CreateStructureType` | source/helpers/loader_script_handler.cpp:71-140 | when the loop ends, posts exactly one `AppendPatternLanguageCode` event holding the reference text if the declaration is accepted, and posts nothing otherwise |
| `ScriptHandler.LoaderScript.AddStruct` | source/helpers/loader_script_handler.cpp:142-144 | the generator with keyword `struct` |
| `ScriptHandler.LoaderScript.AddUnion` | source/helpers/loader_script_handler.cpp:146-148 | the generator with keyword `union` |
| `ScriptHandler.PatchDecision` | source/helpers/loader_script_handler.cpp:27-42 | a patch is accepted exactly when the arguments parse, the bytes are present and non-empty and the start address is below the actual size; the write then carries that address and those bytes; each failure raises its own exception |
| `ScriptHandler.LoaderScript.AddPatch` | source/helpers/loader_script_handler.cpp:22-45 | exactly one write on acceptance and none on failure; it keeps the invariant that every logged write is non-empty and starts inside the data |
| `ScriptHandler.PatchAddressBoundary` | source/helpers/loader_script_handler.cpp:37-40 | a patch at `size - 1` is accepted and a patch at `size` raises `IndexError` |
| `ScriptHandler.PatchMayOverrunEnd` | source/helpers/loader_script_handler.cpp:37-42 | only the start is checked: an accepted write may extend past the end of the data |
| `ScriptHandler.BookmarkDecision` | source/helpers/loader_script_handler.cpp:53-66 | a bookmark is posted exactly when the arguments parse (address, size and name given) and the comment is present; its region, name and comment are the arguments; otherwise `BadArgument`, or `IndexError` for a missing comment |
| `ScriptHandler.AppendAll` | source/helpers/loader_script_handler.cpp:63-64 | copying through a back inserter appends every source character, in order, to the destination |
| `ScriptHandler.LoaderScript.AddBookmark` | source/helpers/loader_script_handler.cpp:47-69 | posts the bookmark once on acceptance and nothing on failure |
| `ScriptHandler.BookmarkExample` | source/helpers/loader_script_handler.cpp:53-66 | `add_bookmark(10, 4, "flag", "suspicious")` posts region `(10, 4)`, name `flag`, comment `suspicious` |

## Left out

- `BuildStructureCode`, `CreateStructureType`, `AddStruct`, `AddUnion`: these require `AnnotationLoopEnds`. It excludes exactly the inputs whose outer type passes every check, that have more than 65535 annotations, and whose first 65536 annotations are all accepted. `BuildMembersCode` requires the same of its annotation list (`MemberLoopEnds`). On those the `u16` counter wraps and the source loops forever, appending member lines again and again. A terminating method cannot model the endless loop. `EndlessLoopInputs` states it for the as-written counter, and the finding below records it.
- `Instantiate`, `CreateStructureType`: a constructor is modelled as deterministic and without side effects. Calling the same type twice gives the same outcome. A constructor cannot call back into the `_imhex` commands while the declaration is being built, so it cannot post events or write patches in between.
- `processFile`, which covers interpreter start-up and shutdown, module registration, the `lib` search path and running the script file: runtime lifecycle and file I/O.
- `Py_getFilePath`: it only returns a stored string.
- Reference counting (`Py_DECREF`, `ScopeExit`): objects are values here. The one place where it matters is the finding below.
- `PyArg_ParseTuple`: the parsed arguments are inputs, and `None` stands for a failed parse. For `add_bookmark` the name is always present after a successful parse, so the model has no null name, and the source's `name == nullptr` test at line 58 is dead.
- A negative `size` passed to `add_bookmark` through the `n` format is not modelled; the region size is taken as already converted.
- `patch` called without the bytes argument: the source then leaves `patches` and `count` uninitialised, so its behaviour is undefined. The model treats absent bytes like null bytes (a `TypeError`).
- An annotation key that is not a string, for which `PyUnicode_AsUTF8` returns null: member names are strings here.
- The test at line 118 for an item without a type never fires in the source, because `PyDict_Items` always yields pairs with a value. The model keeps the case (`memberType == None`) with the source's `TypeError`.
- `add_bookmark` copies the name and comment up to `strlen`. Strings converted by the `s` format hold no NUL character, so the copy is the whole string.
- The data provider's own write semantics and the consumers of posted events: external code, modelled as logs. The provider's size is not changed by the model's writes.
- Python exception objects are modelled as an error kind with its message.

## Findings

| source | as written | input that shows it | evidently intended | confidence | as-written member | corrected member |
|---|---|---|---|---|---|---|
| source/helpers/loader_script_handler.cpp:122-127 | when `memberTypeInstance` is null, the failure branch still calls `Py_DECREF(memberTypeInstance)`, which dereferences the null pointer | a structure type that extends `ImHexType` and has one annotation whose type's constructor raises | raise the member `TypeError` and release nothing (`Py_XDECREF`) | high; not executed | `StructureCodegen.CheckMemberInstanceAsWritten`, `StructureCodegen.RaisingMemberDecRefsNull` | `StructureCodegen.ResolveMember` |
| source/helpers/loader_script_handler.cpp:113 | the loop counter `i` is a `u16`, so after 65535 it wraps to 0 and `i < PyList_Size(list)` stays true for a list of more than 65535 items | a structure type that extends `ImHexType` and has 65536 annotations with distinct names whose types all extend `ImHexType` (`LONG_STRUCTURE_TYPE`) | a counter as wide as the list size, so that the loop ends and posts the declaration with every member once | high; not executed | `StructureCodegen.EndlessLoopInputs`, `StructureCodegen.LongStructureLoopsForever` | `StructureCodegen.ResolveMembers` |
