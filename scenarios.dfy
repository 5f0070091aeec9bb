/**
 * A small descriptor tree: file "F" holds message "Order" (field 4 of
 * FileDescriptorProto, `message_type`), which holds field "id" (field 2 of
 * DescriptorProto, `field`).  Tags are written as protoc-gen-go writes them.
 */
module Scenarios {
  import opened Wrappers
  import opened Values
  import opened Tags
  import opened Fields
  import opened Walker

  /** The struct tags the tree uses: `Name`, `DescriptorProto.Field`, `FileDescriptorProto.MessageType`. */
  datatype TreeTags = TreeTags(name: string, field: string, messageType: string)

  /** The tags as protoc-gen-go writes them. */
  function GeneratedTags(): TreeTags
  {
    TreeTags(GoTag("bytes", 1, "opt", "name", []),
             GoTag("bytes", 2, "rep", "field", []),
             GoTag("bytes", 4, "rep", "message_type", ["json=messageType"]))
  }

  /** The tags carry the numbers 1, 2 and 4. */
  predicate Numbered(t: TreeTags)
  {
    TagNumber(t.name) == Some(1) && TagNumber(t.field) == Some(2) && TagNumber(t.messageType) == Some(4)
  }

  lemma GeneratedTagsNumbered()
    ensures Numbered(GeneratedTags())
  {
    NameTagNumber();
    FieldTagNumber();
    MessageTypeTagNumber();
  }

  lemma NameTagNumber()
    ensures TagNumber(GoTag("bytes", 1, "opt", "name", [])) == Some(1)
  {
    GoTagNumber("bytes", 1, "opt", "name", []);
  }

  lemma FieldTagNumber()
    ensures TagNumber(GoTag("bytes", 2, "rep", "field", [])) == Some(2)
  {
    GoTagNumber("bytes", 2, "rep", "field", []);
  }

  lemma MessageTypeTagNumber()
    ensures TagNumber(GoTag("bytes", 4, "rep", "message_type", ["json=messageType"])) == Some(4)
  {
    GoTagNumber("bytes", 4, "rep", "message_type", ["json=messageType"]);
  }

  /** The `Name *string` field every descriptor struct starts with. */
  function NameField(t: TreeTags, name: string): Field
  {
    Field("Name", t.name, Ptr(Str(name)))
  }

  /** The `Name` field is skipped and field 1 carries `number`. */
  lemma FindsSecondField(fields: seq<Field>, t: TreeTags, number: int)
    requires |fields| == 2 && fields[0].tag == t.name && TagNumber(fields[1].tag) == Some(number)
    requires Numbered(t) && number > 1
    ensures FieldLookup(number, Struct(fields)).Ok?
    ensures FieldLookup(number, Struct(fields)).value.value == fields[1].value
  {
    NumberAt(fields, 0);
    NumberAt(fields, 1);
    assert Skipped(Numbers(fields), number, 0);
    LookupFindsFirstMatch(fields, Numbers(fields), number, 0, 1);
  }

  function OrderMessage(t: TreeTags): Node
  {
    Struct([NameField(t, "Order"), Field("Field", t.field, Slice([Ptr(Struct([NameField(t, "id")]))]))])
  }

  function FileF(t: TreeTags): Node
  {
    Struct([NameField(t, "F"), Field("MessageType", t.messageType, Slice([Ptr(OrderMessage(t))]))])
  }

  function IdField(t: TreeTags): Node
  {
    Struct([NameField(t, "id")])
  }

  /** Message "Order" has a repeated field 2 whose element 0 is field "id". */
  lemma OrderStep(t: TreeTags)
    requires Numbered(t)
    ensures StepOk(OrderMessage(t), At(2, 0))
    ensures NextNode(OrderMessage(t), At(2, 0)) == IdField(t)
    ensures NodeName(OrderMessage(t)) == Ok("Order")
  {
    FindsSecondField(OrderMessage(t).fields, t, 2);
  }

  /** `[2, 0]` from message "Order" addresses its field "id". */
  lemma WalkOrderField(t: TreeTags)
    requires Numbered(t)
    ensures Walk([2, 0], OrderMessage(t)) == Ok(["Order", "id"])
  {
    OrderStep(t);
    WalkOneStep(OrderMessage(t), At(2, 0), []);
    assert StructName(IdField(t).fields) == Ok("id");
    assert StepCode(At(2, 0)) + [] == [2, 0];
    assert ["Order"] + ["id"] == ["Order", "id"];
  }

  /** File "F" has a repeated field 4 whose element 0 is message "Order". */
  lemma FileStep(t: TreeTags)
    requires Numbered(t)
    ensures StepOk(FileF(t), At(4, 0))
    ensures NextNode(FileF(t), At(4, 0)) == OrderMessage(t)
    ensures NodeName(FileF(t)) == Ok("F")
  {
    FindsSecondField(FileF(t).fields, t, 4);
  }

  /** The file level: one step into `message_type`, element 0. */
  lemma WalkFromFile(t: TreeTags, deeper: seq<int32>)
    requires Numbered(t)
    ensures Walk([4, 0] + deeper, FileF(t)) == Prepend("F", Walk(deeper, OrderMessage(t)))
  {
    FileStep(t);
    WalkOneStep(FileF(t), At(4, 0), deeper);
    assert StepCode(At(4, 0)) == [4, 0];
  }

  /** `[4, 0, 2, 0]` addresses field "id" of message "Order" of file "F". */
  lemma WalkOrderId(t: TreeTags)
    requires Numbered(t)
    ensures Walk([4, 0, 2, 0], FileF(t)) == Ok(["F", "Order", "id"])
  {
    FileStep(t);
    WalkOrderField(t);
    WalkOneStep(FileF(t), At(4, 0), [2, 0]);
    assert StepCode(At(4, 0)) + [2, 0] == [4, 0, 2, 0];
    assert ["F"] + ["Order", "id"] == ["F", "Order", "id"];
  }

  /** `[2, 5]` from message "Order": index 5 is past the end of its single field. */
  lemma WalkOrderStale(t: TreeTags)
    requires Numbered(t)
    ensures Walk([2, 5], OrderMessage(t)) == Ok([""])
  {
    OrderStep(t);
    FindsSecondField(OrderMessage(t).fields, t, 2);
    WalkStaleIndex(OrderMessage(t), [], 2, 5);
    assert Encode([]) + [2, 5] == [2, 5];
  }

  /**
   * `[4, 0, 2, 5]`: "Order" has a single field, so index 5 is stale; the
   * "Order" level answers `[""]` and the file level prepends "F".
   */
  lemma WalkStaleFieldIndex(t: TreeTags)
    requires Numbered(t)
    ensures Walk([4, 0, 2, 5], FileF(t)) == Ok(["F", ""])
  {
    FileStep(t);
    WalkOrderStale(t);
    WalkOneStep(FileF(t), At(4, 0), [2, 5]);
    assert StepCode(At(4, 0)) + [2, 5] == [4, 0, 2, 5];
    assert ["F"] + [""] == ["F", ""];
  }

  /** Both scenarios, on the tags protoc-gen-go writes. */
  lemma GeneratedScenarios()
    ensures Walk([4, 0, 2, 0], FileF(GeneratedTags())) == Ok(["F", "Order", "id"])
    ensures Walk([4, 0, 2, 5], FileF(GeneratedTags())) == Ok(["F", ""])
  {
    GeneratedTagsNumbered();
    WalkOrderId(GeneratedTags());
    WalkStaleFieldIndex(GeneratedTags());
  }
}
