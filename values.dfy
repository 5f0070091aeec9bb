/**
 * The part of Go's `reflect` that the comment walker looks at, as an explicit
 * datatype.  A `Node` stands for one `reflect.Value` of a protobuf descriptor
 * struct (`FileDescriptorProto`, `DescriptorProto`, ...) or of one of its
 * fields.
 */
module Values {

  /** A path coordinate: `SourceCodeInfo.Location.path` is a `[]int32`. */
  type int32 = x: int | -0x8000_0000 <= x < 0x8000_0000

  /** The `reflect.Kind` of a value, as far as the walker distinguishes it. */
  datatype Kind = StringKind | PtrKind | StructKind | SliceKind | ScalarKind | InvalidKind

  /**
   * One value seen through reflection.
   *  - `Str`: a Go `string`;
   *  - `Ptr`: a pointer; a nil pointer is `Ptr(Invalid)`, since `Elem()` of a
   *    nil pointer is the zero `reflect.Value`;
   *  - `Struct`: a struct with its fields in declaration order;
   *  - `Slice`: a slice with its elements;
   *  - `Scalar`: any other kind (`int32`, `bool`, `[]byte` elements, ...);
   *  - `Invalid`: the zero `reflect.Value`.
   */
  datatype Node =
    | Str(s: string)
    | Ptr(target: Node)
    | Struct(fields: seq<Field>)
    | Slice(elems: seq<Node>)
    | Scalar
    | Invalid

  /**
   * A struct field: its Go name, the value of its `protobuf:"..."` struct tag
   * (`""` when the field has none) and its value.
   */
  datatype Field = Field(goName: string, tag: string, value: Node)

  /**
   * Every way the walk can end in a Go panic (or in an error that the walker
   * turns into a panic).
   */
  datatype Failure =
    | UnexpectedKind(kind: Kind)      // walkNextStruct: node is not a string, pointer or struct
    | MissingName                     // no `Name` field, a nil one, or one that is not a *string
    | LookupOnNonStruct(kind: Kind)   // getProtobufField on a value that has no struct fields
    | MalformedTag(tag: string)       // a non-empty tag without a comma
    | FieldNotFound(field: int)       // getProtobufField's error, which the walker panics on
    | FieldLabel                      // the path ends right after a field number
    | IndexOutOfRange(index: int, length: nat)  // getCollectionIndex's own panic
    | NegativeIndex(index: int)       // reflect.Value.Index with a negative index

  function KindOf(n: Node): Kind
  {
    match n
    case Str(_) => StringKind
    case Ptr(_) => PtrKind
    case Struct(_) => StructKind
    case Slice(_) => SliceKind
    case Scalar => ScalarKind
    case Invalid => InvalidKind
  }
}
