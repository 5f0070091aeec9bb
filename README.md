# Comment walker: resolving source-location paths to element names

This project models the comment resolver of the `gen-docs` protoc plugin
(`gen-docs/comment-walker/build_ast.go`) in Dafny. The resolver attaches
`.proto` comments to documentation elements. For every source location that
carries a comment, it walks the location's path through the
`FileDescriptorProto` tree. The path is the `SourceCodeInfo.Location.path`
encoding: a field number, followed by an element index when the field is
repeated. The walk yields the root-to-leaf chain of element names, such as
`["F", "Order", "id"]`, and the resolver hands that chain and the leading
comment to the documentation tree.

The model has five modules:

- `Values` (values.dfy) replaces Go `reflect` with a datatype `Node`. A node
  is a string, a pointer (a nil pointer is `Ptr(Invalid)`), a struct with
  tagged fields, a slice, a scalar, or the zero value. `Failure` lists every
  way a run can panic.
- `Tags` (tags.dfy) models `strings.Split` and `strings.Join` with a
  one-character separator, `strconv.Atoi` and `protoFieldLabel`. It also
  models how the field number is read from a `protobuf:"..."` struct tag
  (`TagNumber`) and how protoc-gen-go writes such a tag (`GoTag`).
- `Fields` (fields.dfy) models `getProtobufField`, a method whose loop
  mirrors the Go loop, and `getCollectionIndex`.
- `Walker` (walker.dfy) models `walkNextStruct` as the recursive function
  `Walk`. It adds a structured view of paths: a `Step` is one field
  (`Into`) or one element of a repeated field (`At`), and `Encode` gives the
  path of a sequence of steps.
- `Comments` (comments.dfy) models `associate_comments`. The methods are
  `AssociateComments` (the loop over files) and `CommentLocations` (the loop
  over locations). The documentation tree is the class `DocTree`. It records
  the `SetComment` calls it receives.

The module `Scenarios` (scenarios.dfy) builds a small tree: file "F" holds
message "Order", which holds field "id". Its tags are written as
protoc-gen-go writes them. The module proves the outcome of two paths:

- `[4, 0, 2, 0]` resolves to `["F", "Order", "id"]`.
- `[4, 0, 2, 5]` resolves to `["F", ""]`. The walker's level at "Order"
  meets the stale index 5 and answers `[""]` in place of its own name
  (build_ast.go:150-153). Only "F" is prepended above it, so the chain is not
  `["F", "Order", ""]`. The collector forwards this chain to `SetComment`
  like any other.

Panics are modelled as values. `Walk` returns `Result<seq<string>, Failure>`.
`AssociateComments` returns the failure that ended the run, if any, and the
calls made before the panic stay in the `DocTree`. A non-empty tag without a
comma makes `strings.Split(tag, ",")[1]` panic at build_ast.go:86. The model
keeps this as the outcome `MalformedTag` instead of excluding such tags by a
precondition.

## Model

| member | source | states |
|---|---|---|
| Tags.IndexOf | gen-docs/comment-walker/build_ast.go:61 | the position of the first occurrence of the separator: it is there, and not before |
| Tags.Split | gen-docs/comment-walker/build_ast.go:61-63 | `strings.Split` gives at least one part, and no part contains the separator |
| Tags.JoinSplit | gen-docs/comment-walker/build_ast.go:61-63 | joining the parts of a split with the separator gives back the original string |
| Tags.SplitJoin | gen-docs/comment-walker/build_ast.go:61-63 | splitting a join of separator-free parts gives back exactly those parts |
| Tags.SplitAtFirst | gen-docs/comment-walker/build_ast.go:61 | a string that starts with a separator-free `a` and then a separator splits into `a` and then the split of the rest |
| Tags.SplitNoSep | gen-docs/comment-walker/build_ast.go:61 | a string without the separator splits into itself alone |
| Tags.ProtoFieldLabel | gen-docs/comment-walker/build_ast.go:60-69 | the label never contains `=` |
| Tags.SecondOfEqualsSplit | gen-docs/comment-walker/build_ast.go:63-65 | splitting a part that contains `=` at `=` gives a second piece, which is exactly the text between the first `=` and the next `=` or the end |
| Tags.ProtoFieldLabelCases | gen-docs/comment-walker/build_ast.go:60-69 | the label is `""` when the tag has at most three comma parts or its fourth part has no `=`; otherwise it is the text between the first and second `=` of the fourth part |
| Tags.GoTagParts | gen-docs/comment-walker/build_ast.go:83-86 | a tag written by protoc-gen-go splits at commas back into wire type, number, cardinality, `name=` part and extras |
| Tags.GoTagLabel | gen-docs/comment-walker/build_ast.go:60-69 | protoFieldLabel reads back the name a protoc-gen-go tag was written with |
| Tags.DecimalDigits | gen-docs/comment-walker/build_ast.go:86 | the decimal rendering of a natural number is a non-empty string of digits whose value is the number |
| Tags.DigitRunPrefix | gen-docs/comment-walker/build_ast.go:86 | the digit run is a prefix of the input, made of digits only, and followed by a non-digit or the end |
| Tags.DigitRunOf | gen-docs/comment-walker/build_ast.go:86 | digits followed by a non-digit (or nothing) form exactly the run the string starts with |
| Tags.Atoi | gen-docs/comment-walker/build_ast.go:86 | `strconv.Atoi` with its error dropped: the result lies in the int64 range; digits after the sign worth more than 2^64 - 1 give the int64 bound of the sign, whatever follows them (ParseUint's early range error, clamped by ParseInt); any other input that is not a signed decimal literal reads as 0 |
| Tags.AtoiOverflowBeforeJunk | gen-docs/comment-walker/build_ast.go:86 | overflowing digits followed by junk, such as `"99999999999999999999x"`, read as the largest int64, not as 0 |
| Tags.AtoiDecimal | gen-docs/comment-walker/build_ast.go:86 | Atoi reads back the decimal rendering of any number in the int64 range |
| Tags.TagNumber | gen-docs/comment-walker/build_ast.go:82-87 | an empty tag reads as -1, and the read panics exactly for a non-empty tag without a comma |
| Tags.GoTagNumber | gen-docs/comment-walker/build_ast.go:82-87 | the field number read from a protoc-gen-go tag is the number it was written with |
| Fields.Numbers | gen-docs/comment-walker/build_ast.go:77-87 | the numbers read from the fields' tags, one per field |
| Fields.NumberAt | gen-docs/comment-walker/build_ast.go:82-87 | entry `i` is the number read from field `i`'s tag |
| Fields.LookupFrom | gen-docs/comment-walker/build_ast.go:77-98 | the scan either succeeds, reports "not found" for the requested number, or panics on a malformed tag |
| Fields.LookupFromOk | gen-docs/comment-walker/build_ast.go:77-92 | a successful lookup returns the value and label of the first field, in declared order, whose tag carries the number; every field before it has a readable tag that does not match |
| Fields.LookupFromNotFound | gen-docs/comment-walker/build_ast.go:89-98 | the lookup reports "not found" exactly when every remaining tag is readable and none carries the number |
| Fields.LookupFindsFirstMatch | gen-docs/comment-walker/build_ast.go:77-92 | when field `i` is the first match, the lookup returns it |
| Fields.LookupPanicsOnMalformedTag | gen-docs/comment-walker/build_ast.go:85-86 | a non-empty tag without a comma, met before any match, ends the lookup in a panic |
| Fields.NoMatchFront | gen-docs/comment-walker/build_ast.go:89-95 | a skipped field can be added to or removed from the front of a range without a match |
| Fields.GetProtobufField | gen-docs/comment-walker/build_ast.go:72-99 | the loop (pfield_n reset to -1 each pass, early return on a match, panic on a malformed tag) computes the lookup; a non-struct value panics |
| Fields.GetCollectionIndex | gen-docs/comment-walker/build_ast.go:101-106 | the element is returned exactly for an index in range; an index at or past the end is the function's own panic, and a negative index is the panic of `Index` |
| Walker.StructName | gen-docs/comment-walker/build_ast.go:119 | a struct whose `Name` field points to a string is named by that string; any name returned comes from such a field; a struct without a `Name` field makes the walker panic, and naming fails in no other way |
| Walker.NodeName | gen-docs/comment-walker/build_ast.go:109-121 | naming a node fails only with a missing name or a node of an unexpected kind |
| Walker.Walk | gen-docs/comment-walker/build_ast.go:108-166 | a chain has at least one and at most path-length + 1 names; the walk never reaches getCollectionIndex's own panic; an empty path gives a string's text, `""` for a pointer, or a struct's `Name`; it terminates because every recursive call gets a shorter path |
| Walker.Encode | gen-docs/comment-walker/build_ast.go:145-165 | the `SourceCodeInfo` path of a sequence of steps: the field number of each step, followed by the element index for a step into a repeated field; a non-empty sequence of steps has a non-empty path |
| Walker.EncodeLength | gen-docs/comment-walker/build_ast.go:145-165 | a path spends one coordinate per step and a second one per step into a repeated field, and starts with the first step's field number |
| Walker.Trail | gen-docs/comment-walker/build_ast.go:145-165 | one name per step |
| Walker.WalkOneStep | gen-docs/comment-walker/build_ast.go:131-165 | a valid step consumes one coordinate for a singular field and two for a repeated one, and prepends this node's name to the walk from the next node |
| Walker.WalkAlong | gen-docs/comment-walker/build_ast.go:108-166 | walking the encoding of valid steps followed by any rest gives the names of the nodes passed, then the walk of the rest from the node reached |
| Walker.WalkResolvesPosition | gen-docs/comment-walker/build_ast.go:125-165 | the path of a real position resolves to the names along it and the name of the element reached, so the chain has one name more than there are steps |
| Walker.WalkStaleIndex | gen-docs/comment-walker/build_ast.go:150-153 | an index past the end of a repeated field does not panic: that level answers `[""]`, and the chain is the names above it followed by `""` |
| Walker.WalkFieldLabel | gen-docs/comment-walker/build_ast.go:138-141 | a path that ends right after a field number panics |
| Walker.WalkUnknownField | gen-docs/comment-walker/build_ast.go:131-134 | a field number that no field carries panics, whatever follows it in the path |
| Walker.WalkUnexpectedKind | gen-docs/comment-walker/build_ast.go:115-117 | reaching a node that is not a string, pointer or struct panics |
| Comments.Utf8Width | gen-docs/comment-walker/build_ast.go:184 | a character takes 1 to 4 bytes in UTF-8, and exactly 1 when it is ASCII |
| Comments.Utf8Len | gen-docs/comment-walker/build_ast.go:184 | `len` of a Go string counts UTF-8 bytes: at least one and at most four per character |
| Comments.LongerThanOneByte | gen-docs/comment-walker/build_ast.go:184 | a text is longer than one byte exactly when it has two or more characters, or one non-ASCII character |
| Comments.OneAccentedCharacter | gen-docs/comment-walker/build_ast.go:184 | "é" is one character but two bytes long |
| Comments.AccentedCommentWalked | gen-docs/comment-walker/build_ast.go:194 | a location whose leading comment is the single character "é" passes the filter and is walked |
| Comments.DocTree.SetComment | gen-docs/comment-walker/build_ast.go:197 | the call is recorded after all earlier ones |
| Comments.LocationsTraceStep | gen-docs/comment-walker/build_ast.go:182 | the locations are handled one after the other, in order |
| Comments.LocationsAfterFailure | gen-docs/comment-walker/build_ast.go:196 | after a panic, no later location has any effect |
| Comments.FilesAfterFailure | gen-docs/comment-walker/build_ast.go:169-200 | after a panic, no later file has any effect |
| Comments.FilesTraceStep | gen-docs/comment-walker/build_ast.go:169 | the files are handled one after the other, in order |
| Comments.CommentLocations | gen-docs/comment-walker/build_ast.go:182-199 | the location loop (which walks a location when its leading comment is longer than one byte or it has more than one detached comment) adds to the tree exactly the calls of the location trace, in order, and returns its panic |
| Comments.AssociateComments | gen-docs/comment-walker/build_ast.go:168-201 | the whole run (the `skip` flag loop, then the location loop of every kept file) adds exactly the calls of the request's trace, in file then location order, and returns its panic |
| Comments.Commented | gen-docs/comment-walker/build_ast.go:194 | the commented locations are drawn from the given ones |
| Comments.GeneratedFiles | gen-docs/comment-walker/build_ast.go:171-179 | the kept files are drawn from the given ones and are all in `FileToGenerate` |
| Comments.UncommentedLocationsIgnored | gen-docs/comment-walker/build_ast.go:194 | removing the locations without a comment changes nothing |
| Comments.OnlyGeneratedFilesProcessed | gen-docs/comment-walker/build_ast.go:171-179 | removing the files not in `FileToGenerate` changes nothing |
| Comments.LocationCallsSourced | gen-docs/comment-walker/build_ast.go:194-197 | every call for a file carries the chain walked for one of its commented locations, and that location's leading comment; a panic comes from walking one of them |
| Comments.CallsComeFromCommentedLocations | gen-docs/comment-walker/build_ast.go:168-201 | every call carries the chain walked for a commented location of a generated file, and its leading comment, never detached text; a panic comes from walking such a location |
| Comments.LocationCallCount | gen-docs/comment-walker/build_ast.go:194-197 | without a panic, a file yields one call per commented location |
| Comments.EveryCommentForwarded | gen-docs/comment-walker/build_ast.go:168-201 | without a panic, the run makes one call per commented location of every generated file |
| Scenarios.NameTagNumber | gen-docs/comment-walker/build_ast.go:86 | the tag of `Name` carries number 1 |
| Scenarios.FieldTagNumber | gen-docs/comment-walker/build_ast.go:86 | the tag of `DescriptorProto.Field` carries number 2 |
| Scenarios.MessageTypeTagNumber | gen-docs/comment-walker/build_ast.go:86 | the tag of `FileDescriptorProto.MessageType` carries number 4 |
| Scenarios.GeneratedTagsNumbered | gen-docs/comment-walker/build_ast.go:86 | the generated tags carry the numbers 1, 2 and 4 |
| Scenarios.FindsSecondField | gen-docs/comment-walker/build_ast.go:77-92 | in a struct whose `Name` comes first, a later field numbered above 1 is the one found |
| Scenarios.OrderStep | gen-docs/comment-walker/build_ast.go:131-154 | message "Order" is named "Order", and its field 2 is repeated with element 0 the field "id" |
| Scenarios.FileStep | gen-docs/comment-walker/build_ast.go:131-154 | file "F" is named "F", and its field 4 is repeated with element 0 the message "Order" |
| Scenarios.WalkOrderStale | gen-docs/comment-walker/build_ast.go:150-153 | `[2, 5]` from message "Order" gives `[""]` |
| Scenarios.WalkOrderField | gen-docs/comment-walker/build_ast.go:150-165 | `[2, 0]` from message "Order" gives `["Order", "id"]` |
| Scenarios.WalkFromFile | gen-docs/comment-walker/build_ast.go:154-165 | a path starting `[4, 0]` from file "F" gives "F" prepended to the walk from message "Order" |
| Scenarios.WalkOrderId | gen-docs/comment-walker/build_ast.go:108-166 | `[4, 0, 2, 0]` from file "F" gives `["F", "Order", "id"]` |
| Scenarios.WalkStaleFieldIndex | gen-docs/comment-walker/build_ast.go:150-153 | `[4, 0, 2, 5]` from file "F" gives `["F", ""]` |
| Scenarios.GeneratedScenarios | gen-docs/comment-walker/build_ast.go:108-166 | both paths, on the tags protoc-gen-go writes |

## Left out

- Logging: `logf`, `logfd` and the global `response` buffer (build_ast.go:21-39) only write diagnostics. That includes the printing of leading and detached comments at build_ast.go:183-189. The model has no log.
- `parseReq`, `main` and `str_to_response`: they read stdin, write stdout, and marshal protobufs through library code. The model takes the parsed request as a value (`Request`).
- truss/cmd/truss/main.go is not part of this model. It only orchestrates processes and the file system.
- The `doctree` package is not part of this model. `DocTree` only records the `SetComment` calls it receives, in order.
- Go `reflect` beyond the shapes in `Node`. Field types, unexported fields and the search of embedded structs by `FieldByName` are not modelled. `Name` is looked up among a struct's own fields, by Go name.
- The file name that decides `skip` (`file.GetName()`) is the `name` of `ProtoFile`. The model does not tie it to the `Name` field inside the file's descriptor `root`, which the walker reads.
- The `depth` parameters of `getProtobufField` and `walkNextStruct` only feed the log's indentation, so they are dropped.
- Tags.Atoi: models `strconv.Atoi` on a 64-bit platform only, where `int` is 64 bits wide. A digit run after the sign worth more than 2^64 - 1 gives the bound of its sign, whatever follows it. Any other literal outside the int64 range is clamped to its bounds, as `ParseInt` clamps it.
- Text: comments and names are sequences of Unicode characters. A Go string holding bytes that are not valid UTF-8 is not modelled. The length test on the leading comment counts the UTF-8 bytes of the characters.
- Panic messages: a value with no struct fields makes `getProtobufField` panic on `Type().NumField()`, and a nil pointer's `Elem()` makes it panic on `Type()`. The model names both `LookupOnNonStruct` and does not tell apart Go's different panic messages.
