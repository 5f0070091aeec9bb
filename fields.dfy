/**
 * Finding a field of a descriptor struct by its protobuf field number
 * (`getProtobufField`) and taking an element of a slice
 * (`getCollectionIndex`), gen-docs/comment-walker/build_ast.go.
 */
module Fields {
  import opened Wrappers
  import opened Values
  import opened Tags

  /** What getProtobufField hands back: the field's value and its label. */
  datatype Found = Found(value: Node, fieldLabel: string)

  /**
   * The number getProtobufField reads from each tag (see TagNumber), in
   * declared order.  The scan below consults entry `k` only when it reaches
   * field `k`, so listing them up front changes nothing.
   */
  function Numbers(fields: seq<Field>): (nums: seq<Option<int>>)
    ensures |nums| == |fields|
    decreases |fields|
  {
    if fields == [] then [] else [TagNumber(fields[0].tag)] + Numbers(fields[1..])
  }

  /** Entry `i` is the number of field `i`'s tag. */
  lemma {:induction false} NumberAt(fields: seq<Field>, i: nat)
    requires i < |fields|
    ensures Numbers(fields)[i] == TagNumber(fields[i].tag)
    decreases i
  {
    if i > 0 {
      NumberAt(fields[1..], i - 1);
    }
  }

  /** Field `i` carries number `n` (an empty tag, number -1, never does). */
  predicate IsMatch(nums: seq<Option<int>>, n: int, i: nat)
    requires i < |nums|
  {
    nums[i].Some? && nums[i].value != -1 && nums[i].value == n
  }

  /** Field `i` has a readable tag that is not numbered `n`: the scan moves past it. */
  predicate Skipped(nums: seq<Option<int>>, n: int, i: nat)
    requires i < |nums|
  {
    nums[i].Some? && !IsMatch(nums, n, i)
  }

  /** Fields `lo` up to `hi` all have readable tags, none of them numbered `n`. */
  predicate NoMatchIn(nums: seq<Option<int>>, n: int, lo: nat, hi: nat)
    requires lo <= hi <= |nums|
  {
    forall j :: lo <= j < hi ==> Skipped(nums, n, j)
  }

  /** What getProtobufField returns for field `i`. */
  function FoundAt(fields: seq<Field>, i: nat): Found
    requires i < |fields|
  {
    Found(fields[i].value, ProtoFieldLabel(fields[i].tag))
  }

  /**
   * The scan of getProtobufField from field `k` on, `nums` holding the
   * number of each field's tag: the first field numbered `n`; a panic at a
   * non-empty tag without a comma met before it; "not found" when the scan
   * runs off the end.
   */
  function LookupFrom(fields: seq<Field>, nums: seq<Option<int>>, n: int, k: nat): (r: Result<Found, Failure>)
    requires |nums| == |fields| && k <= |fields|
    ensures r.Err? ==> r.error == FieldNotFound(n) || r.error.MalformedTag?
    decreases |fields| - k
  {
    if k == |fields| then Err(FieldNotFound(n))
    else match nums[k]
      case None => Err(MalformedTag(fields[k].tag))
      case Some(m) =>
        if m != -1 && m == n then Ok(FoundAt(fields, k))
        else LookupFrom(fields, nums, n, k + 1)
  }

  /**
   * getProtobufField on a value: reflection only lists the fields of a
   * struct, and panics for any other kind.
   */
  function FieldLookup(n: int, msg: Node): Result<Found, Failure>
  {
    if msg.Struct? then LookupFrom(msg.fields, Numbers(msg.fields), n, 0)
    else Err(LookupOnNonStruct(KindOf(msg)))
  }

  /** A readable, non-matching field `k` can be added to or taken off the front of a match-free range. */
  lemma NoMatchFront(nums: seq<Option<int>>, n: int, k: nat, hi: nat)
    requires k < hi <= |nums|
    requires Skipped(nums, n, k)
    ensures NoMatchIn(nums, n, k, hi) <==> NoMatchIn(nums, n, k + 1, hi)
  {
  }

  /** A successful scan returns the first field numbered `n`. */
  lemma {:induction false} LookupFromOk(fields: seq<Field>, nums: seq<Option<int>>, n: int, k: nat)
    requires |nums| == |fields| && k <= |fields|
    ensures var r := LookupFrom(fields, nums, n, k);
      r.Ok? ==> exists i :: k <= i < |fields| && NoMatchIn(nums, n, k, i)
                          && IsMatch(nums, n, i) && r.value == FoundAt(fields, i)
    decreases |fields| - k
  {
    var r := LookupFrom(fields, nums, n, k);
    if k < |fields| && r.Ok? {
      if IsMatch(nums, n, k) {
        assert NoMatchIn(nums, n, k, k);
      } else {
        LookupFromOk(fields, nums, n, k + 1);
        var i :| k + 1 <= i < |fields| && NoMatchIn(nums, n, k + 1, i)
          && IsMatch(nums, n, i) && r.value == FoundAt(fields, i);
        NoMatchFront(nums, n, k, i);
      }
    }
  }

  /** The scan reports "not found" exactly when every remaining tag is readable and none matches. */
  lemma {:induction false} LookupFromNotFound(fields: seq<Field>, nums: seq<Option<int>>, n: int, k: nat)
    requires |nums| == |fields| && k <= |fields|
    ensures LookupFrom(fields, nums, n, k) == Err(FieldNotFound(n)) <==> NoMatchIn(nums, n, k, |fields|)
    decreases |fields| - k
  {
    if k < |fields| && Skipped(nums, n, k) {
      LookupFromNotFound(fields, nums, n, k + 1);
      NoMatchFront(nums, n, k, |fields|);
    }
  }

  /** The scan finds the first field, in declared order, numbered `n`. */
  lemma {:induction false} LookupFindsFirstMatch(fields: seq<Field>, nums: seq<Option<int>>, n: int, k: nat, i: nat)
    requires |nums| == |fields| && k <= i < |fields|
    requires NoMatchIn(nums, n, k, i) && IsMatch(nums, n, i)
    ensures LookupFrom(fields, nums, n, k) == Ok(FoundAt(fields, i))
    decreases i - k
  {
    if k < i {
      assert Skipped(nums, n, k);
      LookupFindsFirstMatch(fields, nums, n, k + 1, i);
    }
  }

  /** A non-empty tag without a comma met before any match is a panic. */
  lemma {:induction false} LookupPanicsOnMalformedTag(fields: seq<Field>, nums: seq<Option<int>>, n: int, k: nat, i: nat)
    requires |nums| == |fields| && k <= i < |fields|
    requires NoMatchIn(nums, n, k, i) && nums[i].None?
    ensures LookupFrom(fields, nums, n, k) == Err(MalformedTag(fields[i].tag))
    decreases i - k
  {
    if k < i {
      assert Skipped(nums, n, k);
      LookupPanicsOnMalformedTag(fields, nums, n, k + 1, i);
    }
  }

  /**
   * getProtobufField: scans the fields in declared order and returns the
   * first whose tag's second comma-separated part reads as `n`.
   */
  method GetProtobufField(n: int, msg: Node) returns (r: Result<Found, Failure>)
    ensures r == FieldLookup(n, msg)
  {
    if !msg.Struct? {
      return Err(LookupOnNonStruct(KindOf(msg)));
    }
    var fields := msg.fields;
    ghost var nums := Numbers(fields);
    var i := 0;
    while i < |fields|
      invariant 0 <= i <= |fields|
      invariant LookupFrom(fields, nums, n, i) == LookupFrom(fields, nums, n, 0)
    {
      NumberAt(fields, i);
      var pfieldN := -1;
      var tag := fields[i].tag;
      var fieldLabel := ProtoFieldLabel(tag);
      if |tag| != 0 {
        var parts := Split(tag, ',');
        if |parts| < 2 {
          return Err(MalformedTag(tag));
        }
        pfieldN := Atoi(parts[1]);
      }
      if pfieldN != -1 && pfieldN == n {
        return Ok(Found(fields[i].value, fieldLabel));
      }
      i := i + 1;
    }
    return Err(FieldNotFound(n));
  }

  /**
   * getCollectionIndex: element `index` of a slice.  Its own check only
   * rejects an index at or past the end; a negative one makes
   * reflect.Value.Index panic.
   */
  function GetCollectionIndex(elems: seq<Node>, index: int): (r: Result<Node, Failure>)
    ensures r.Ok? <==> 0 <= index < |elems|
    ensures r.Ok? ==> r.value == elems[index]
    ensures index >= |elems| ==> r == Err(IndexOutOfRange(index, |elems|))
    ensures index < 0 ==> r == Err(NegativeIndex(index))
  {
    if index >= |elems| then Err(IndexOutOfRange(index, |elems|))
    else if index < 0 then Err(NegativeIndex(index))
    else Ok(elems[index])
  }
}
