/**
 * Reading a Go `protobuf:"..."` struct tag such as
 * `bytes,4,rep,name=message_type,json=messageType`: the comma-separated parts
 * are the wire type, the field number, the cardinality and `name=<fieldLabel>`.
 * Models `strings.Split` with a one-character separator, `strconv.Atoi` and
 * `protoFieldLabel` (gen-docs/comment-walker/build_ast.go).
 */
module Tags {
  import opened Wrappers

  /** `strings.Join(parts, string(sep))`. */
  function Join(parts: seq<string>, sep: char): string
    requires parts != []
  {
    if |parts| == 1 then parts[0] else parts[0] + [sep] + Join(parts[1..], sep)
  }

  /** `strings.Index(s, string(c))` when `c` occurs in `s`: its first position. */
  function IndexOf(s: string, c: char): (i: nat)
    requires c in s
    ensures i < |s| && s[i] == c && c !in s[..i]
  {
    if s[0] == c then 0
    else
      assert s == [s[0]] + s[1..];
      var j := IndexOf(s[1..], c);
      assert s[..j + 1] == [s[0]] + s[1..][..j];
      j + 1
  }

  /**
   * `strings.Split(s, string(sep))`: cut `s` at every separator, from left to
   * right, keeping the empty pieces (so `Split("", sep) == [""]`).
   */
  function Split(s: string, sep: char): (parts: seq<string>)
    ensures parts != []
    ensures forall k :: 0 <= k < |parts| ==> sep !in parts[k]
    decreases |s|
  {
    if sep !in s then [s]
    else
      var i := IndexOf(s, sep);
      [s[..i]] + Split(s[i + 1..], sep)
  }

  /** Joining the pieces back with the separator gives the string again. */
  lemma {:induction false} JoinSplit(s: string, sep: char)
    ensures Join(Split(s, sep), sep) == s
    decreases |s|
  {
    if sep in s {
      var i := IndexOf(s, sep);
      JoinSplit(s[i + 1..], sep);
      var parts := Split(s, sep);
      assert parts[1..] == Split(s[i + 1..], sep);
      assert s == s[..i] + [sep] + s[i + 1..];
    }
  }

  /** Splitting at the first separator: `a` becomes the first part. */
  lemma SplitAtFirst(a: string, b: string, sep: char)
    requires sep !in a
    ensures Split(a + [sep] + b, sep) == [a] + Split(b, sep)
  {
    var s := a + [sep] + b;
    assert s[|a|] == sep;
    var i := IndexOf(s, sep);
    assert s[..|a|] == a;
    assert i == |a|;
    assert s[..i] == a && s[i + 1..] == b;
  }

  /** A separator-free string is split into itself alone. */
  lemma SplitNoSep(a: string, sep: char)
    requires sep !in a
    ensures Split(a, sep) == [a]
  {
  }

  /** Split undoes Join when no part holds the separator. */
  lemma {:induction false} SplitJoin(parts: seq<string>, sep: char)
    requires parts != []
    requires forall k :: 0 <= k < |parts| ==> sep !in parts[k]
    ensures Split(Join(parts, sep), sep) == parts
    decreases |parts|
  {
    if |parts| == 1 {
      SplitNoSep(parts[0], sep);
    } else {
      SplitJoin(parts[1..], sep);
      SplitAtFirst(parts[0], Join(parts[1..], sep), sep);
      assert [parts[0]] + parts[1..] == parts;
    }
  }

  /**
   * `protoFieldLabel`: the text after the first `=` (up to the next one) of
   * the fourth comma-separated part of the tag, or `""` when the tag has at
   * most three parts or that part has no `=`.
   */
  function ProtoFieldLabel(tag: string): (fieldLabel: string)
    ensures '=' !in fieldLabel
  {
    var commaSplit := Split(tag, ',');
    if |commaSplit| > 3 then
      var eqSplit := Split(commaSplit[3], '=');
      if |eqSplit| > 1 then eqSplit[1] else ""
    else ""
  }

  /**
   * `fieldLabel` is what lies between the `=` at index `i` of `part`, the first
   * one, and the next `=` (or the end of `part`).
   */
  predicate LabelAt(part: string, i: int, fieldLabel: string)
  {
    0 <= i < |part| && part[i] == '=' && '=' !in part[..i]
    && i + 1 + |fieldLabel| <= |part| && part[i + 1..i + 1 + |fieldLabel|] == fieldLabel
    && '=' !in fieldLabel
    && (i + 1 + |fieldLabel| == |part| || part[i + 1 + |fieldLabel|] == '=')
  }

  /** `fieldLabel` is what lies between the first `=` of `part` and the next `=` (or the end). */
  ghost predicate BetweenFirstEquals(part: string, fieldLabel: string)
  {
    exists i :: LabelAt(part, i, fieldLabel)
  }

  /** The first piece of a split is a prefix of the input, ended by the separator or the end. */
  lemma FirstPiece(s: string, sep: char)
    ensures |Split(s, sep)[0]| <= |s|
    ensures s[..|Split(s, sep)[0]|] == Split(s, sep)[0]
    ensures |Split(s, sep)[0]| == |s| || s[|Split(s, sep)[0]|] == sep
  {
    if sep in s {
      var j := IndexOf(s, sep);
      assert Split(s, sep)[0] == s[..j];
    }
  }

  /** Splitting at `=` a part that holds one puts the text after the first `=` second. */
  lemma SecondOfEqualsSplit(part: string)
    requires '=' in part
    ensures |Split(part, '=')| > 1
    ensures BetweenFirstEquals(part, Split(part, '=')[1])
  {
    var i := IndexOf(part, '=');
    var rest := part[i + 1..];
    assert Split(part, '=') == [part[..i]] + Split(rest, '=');
    var text := Split(rest, '=')[0];
    FirstPiece(rest, '=');
    assert part[i + 1..i + 1 + |text|] == rest[..|text|];
    assert i + 1 + |text| == |part| || part[i + 1 + |text|] == rest[|text|];
    assert LabelAt(part, i, text);
  }

  /** Both outcomes of protoFieldLabel, stated without reference to its body. */
  lemma ProtoFieldLabelCases(tag: string)
    ensures var parts := Split(tag, ',');
      (|parts| <= 3 || '=' !in parts[3]) ==> ProtoFieldLabel(tag) == ""
    ensures var parts := Split(tag, ',');
      (|parts| > 3 && '=' in parts[3]) ==> BetweenFirstEquals(parts[3], ProtoFieldLabel(tag))
  {
    var parts := Split(tag, ',');
    if |parts| > 3 && '=' in parts[3] {
      SecondOfEqualsSplit(parts[3]);
    }
  }

  /** A tag as protoc-gen-go writes it: wire type, number, cardinality, `name=` and optional extras. */
  function GoTag(wire: string, number: nat, cardinality: string, name: string, extras: seq<string>): string
  {
    Join([wire, Decimal(number), cardinality, "name=" + name] + extras, ',')
  }

  /** The comma-separated parts of a generated tag are the ones it was written from. */
  lemma GoTagParts(wire: string, number: nat, cardinality: string, name: string, extras: seq<string>)
    requires ',' !in wire && ',' !in cardinality && ',' !in name
    requires forall k :: 0 <= k < |extras| ==> ',' !in extras[k]
    ensures Split(GoTag(wire, number, cardinality, name, extras), ',')
         == [wire, Decimal(number), cardinality, "name=" + name] + extras
  {
    var parts := [wire, Decimal(number), cardinality, "name=" + name] + extras;
    DecimalDigits(number);
    assert ',' !in "name=" + name;
    forall k | 0 <= k < |parts|
      ensures ',' !in parts[k]
    {
      if k == 1 {
        assert forall j :: 0 <= j < |Decimal(number)| ==> IsDigit(Decimal(number)[j]);
      } else if k >= 4 {
        assert parts[k] == extras[k - 4];
      }
    }
    SplitJoin(parts, ',');
  }

  /** protoFieldLabel gives back the name written into a generated tag. */
  lemma GoTagLabel(wire: string, number: nat, cardinality: string, name: string, extras: seq<string>)
    requires ',' !in wire && ',' !in cardinality && ',' !in name && '=' !in name
    requires forall k :: 0 <= k < |extras| ==> ',' !in extras[k]
    ensures ProtoFieldLabel(GoTag(wire, number, cardinality, name, extras)) == name
  {
    GoTagParts(wire, number, cardinality, name, extras);
    assert "name=" + name == "name" + ['='] + name;
    SplitAtFirst("name", name, '=');
    SplitNoSep(name, '=');
  }

  // ---- strconv.Atoi ----

  predicate IsDigit(c: char) { '0' <= c <= '9' }

  predicate AllDigits(s: string) { forall k :: 0 <= k < |s| ==> IsDigit(s[k]) }

  /** The value of a decimal digit (0 for any other character). */
  function DigitValue(c: char): nat
  {
    if IsDigit(c) then c as int - '0' as int else 0
  }

  /** The value of a string of decimal digits. */
  function DigitsValue(s: string): nat
  {
    if s == [] then 0
    else DigitsValue(s[..|s| - 1]) * 10 + DigitValue(s[|s| - 1])
  }

  /** `strconv.Itoa` on a natural number: its decimal digits, no leading zero. */
  function Decimal(n: nat): (s: string)
  {
    if n < 10 then [('0' as int + n) as char]
    else Decimal(n / 10) + [('0' as int + n % 10) as char]
  }

  lemma {:induction false} DecimalDigits(n: nat)
    ensures Decimal(n) != [] && AllDigits(Decimal(n))
    ensures DigitsValue(Decimal(n)) == n
  {
    if n >= 10 {
      DecimalDigits(n / 10);
      var s := Decimal(n);
      assert s[..|s| - 1] == Decimal(n / 10);
    }
  }

  const Int64Min: int := -0x8000_0000_0000_0000
  const Int64Max: int := 0x7fff_ffff_ffff_ffff
  const Uint64Max: int := 0xffff_ffff_ffff_ffff

  /** `s` without its leading `+` or `-`, if it has one. */
  function Unsigned(s: string): string
  {
    if |s| > 0 && (s[0] == '-' || s[0] == '+') then s[1..] else s
  }

  /** An optional sign followed by at least one decimal digit. */
  predicate IsDecimalLiteral(s: string)
  {
    Unsigned(s) != [] && AllDigits(Unsigned(s))
  }

  /** The longest run of digits that `s` starts with. */
  function DigitRun(s: string): string
  {
    if s == [] || !IsDigit(s[0]) then [] else [s[0]] + DigitRun(s[1..])
  }

  /** The run is a prefix of `s`, all digits, and ends where the digits end. */
  lemma {:induction false} DigitRunPrefix(s: string)
    ensures var run := DigitRun(s);
      |run| <= |s| && s[..|run|] == run && AllDigits(run) && (|run| < |s| ==> !IsDigit(s[|run|]))
  {
    if s != [] && IsDigit(s[0]) {
      DigitRunPrefix(s[1..]);
      var tail := DigitRun(s[1..]);
      assert s[..|tail| + 1] == [s[0]] + s[1..][..|tail|];
    }
  }

  /** A run of digits followed by a non-digit (or nothing) is the run `s` starts with. */
  lemma {:induction false} DigitRunOf(run: string, rest: string)
    requires AllDigits(run)
    requires rest == [] || !IsDigit(rest[0])
    ensures DigitRun(run + rest) == run
  {
    if run != [] {
      assert (run + rest)[1..] == run[1..] + rest;
      DigitRunOf(run[1..], rest);
    } else {
      assert run + rest == rest;
    }
  }

  /**
   * ParseUint reads the digits after the sign from left to right and stops
   * with a range error as soon as the value read so far exceeds 2^64 - 1,
   * before it looks at anything that follows.  The value only grows as
   * digits are read, so this happens exactly when the whole run of digits
   * after the sign is worth more than 2^64 - 1.
   */
  predicate Overflows(s: string)
  {
    DigitsValue(DigitRun(Unsigned(s))) > Uint64Max
  }

  /**
   * `strconv.Atoi`, with its error dropped as the walker does: a run of
   * digits that overflows gives the 64-bit bound of its sign (ParseUint's
   * range error, clamped by ParseInt); otherwise the value of a signed
   * decimal literal, clamped to the 64-bit range, and 0 for anything that
   * is not such a literal.
   */
  function Atoi(s: string): (n: int)
    ensures Int64Min <= n <= Int64Max
    ensures Overflows(s) ==> n == (if |s| > 0 && s[0] == '-' then Int64Min else Int64Max)
    ensures !Overflows(s) && !IsDecimalLiteral(s) ==> n == 0
  {
    var negative := |s| > 0 && s[0] == '-';
    var digits := Unsigned(s);
    if DigitsValue(DigitRun(digits)) > Uint64Max then
      if negative then Int64Min else Int64Max
    else if digits == [] || !AllDigits(digits) then 0
    else
      var d: int := DigitsValue(digits);
      var v := if negative then -d else d;
      if v < Int64Min then Int64Min else if v > Int64Max then Int64Max else v
  }

  /** Atoi reads back what Itoa writes. */
  lemma AtoiDecimal(n: nat)
    requires n <= Int64Max
    ensures Atoi(Decimal(n)) == n
  {
    DecimalDigits(n);
    assert IsDigit(Decimal(n)[0]);
    assert Unsigned(Decimal(n)) == Decimal(n);
    DigitRunOf(Decimal(n), []);
    assert Decimal(n) + [] == Decimal(n);
  }

  /**
   * Digits worth more than 2^64 - 1 read as the largest int64, whatever
   * non-digit text follows them: `Atoi("99999999999999999999x")` is
   * 9223372036854775807, not 0.
   */
  lemma AtoiOverflowBeforeJunk(run: string, rest: string)
    requires AllDigits(run) && DigitsValue(run) > Uint64Max
    requires rest == [] || !IsDigit(rest[0])
    ensures Atoi(run + rest) == Int64Max
  {
    assert run != [];
    assert (run + rest)[0] == run[0];
    assert Unsigned(run + rest) == run + rest;
    DigitRunOf(run, rest);
  }

  /**
   * The field number carried by a tag, as getProtobufField computes it:
   * -1 for an empty tag, `None` where `strings.Split(tag, ",")[1]` panics
   * (a non-empty tag without a comma), otherwise Atoi of the second part.
   */
  function TagNumber(tag: string): (r: Option<int>)
    ensures r == None <==> tag != "" && ',' !in tag
    ensures tag == "" ==> r == Some(-1)
  {
    if tag == "" then Some(-1)
    else
      var parts := Split(tag, ',');
      if |parts| < 2 then None else Some(Atoi(parts[1]))
  }

  /** A generated tag carries the field number it was written with. */
  lemma GoTagNumber(wire: string, number: nat, cardinality: string, name: string, extras: seq<string>)
    requires number <= Int64Max
    requires ',' !in wire && ',' !in cardinality && ',' !in name
    requires forall k :: 0 <= k < |extras| ==> ',' !in extras[k]
    ensures TagNumber(GoTag(wire, number, cardinality, name, extras)) == Some(number)
  {
    GoTagParts(wire, number, cardinality, name, extras);
    var tag := GoTag(wire, number, cardinality, name, extras);
    assert tag != "" by {
      assert |Split(tag, ',')| > 1;
    }
    AtoiDecimal(number);
  }
}
