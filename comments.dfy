/**
 * `associate_comments` (gen-docs/comment-walker/build_ast.go): for every
 * file of the request that is to be generated, walks the path of every
 * source location that carries a comment and hands the resulting name chain
 * and the leading comment to the documentation tree.
 */
module Comments {
  import opened Wrappers
  import opened Values
  import opened Walker

  /** A `SourceCodeInfo.Location`: its path and its leading comments. */
  datatype Location = Location(path: seq<int32>, leading: string, leadingDetached: seq<string>)

  /**
   * A `FileDescriptorProto` of the request: its name, the descriptor itself
   * as the walker sees it, and its source locations.
   */
  datatype ProtoFile = ProtoFile(name: string, root: Node, locations: seq<Location>)

  /** The parts of a `CodeGeneratorRequest` the collector reads. */
  datatype Request = Request(fileToGenerate: seq<string>, protoFile: seq<ProtoFile>)

  /** One `SetComment(chain, comment)` call on the documentation tree. */
  datatype Call = Call(chain: seq<string>, comment: string)

  /** The calls made so far and, if the run panicked, why. */
  datatype Trace = Trace(calls: seq<Call>, failure: Option<Failure>)

  /** The number of bytes the UTF-8 encoding of `c` takes. */
  function Utf8Width(c: char): (w: nat)
    ensures 1 <= w <= 4
    ensures w == 1 <==> (c as int) < 0x80
  {
    if (c as int) < 0x80 then 1
    else if (c as int) < 0x800 then 2
    else if (c as int) < 0x1_0000 then 3
    else 4
  }

  /** `len(s)` of a Go string: the length of its UTF-8 encoding in bytes. */
  function Utf8Len(s: string): (n: nat)
    ensures |s| <= n <= 4 * |s|
  {
    if s == [] then 0 else Utf8Width(s[0]) + Utf8Len(s[1..])
  }

  /**
   * A text is longer than one byte exactly when it has two or more
   * characters, or one character outside ASCII.
   */
  lemma LongerThanOneByte(s: string)
    ensures Utf8Len(s) > 1 <==> |s| > 1 || (|s| == 1 && (s[0] as int) >= 0x80)
  {
    if |s| == 1 {
      assert s[1..] == [];
    }
  }

  /** A leading comment of one non-ASCII character, such as "é", is two bytes long. */
  lemma OneAccentedCharacter()
    ensures Utf8Len("\U{E9}") == 2 && |"\U{E9}"| == 1
  {
  }

  /**
   * A location is walked when its leading comment is longer than one byte
   * (`len` of a Go string counts UTF-8 bytes) or when it has MORE THAN ONE
   * detached comment (their number is tested, not their length).
   */
  predicate HasComment(loc: Location)
  {
    Utf8Len(loc.leading) > 1 || |loc.leadingDetached| > 1
  }

  /** So a location whose leading comment is one accented character is walked. */
  lemma AccentedCommentWalked(path: seq<int32>)
    ensures HasComment(Location(path, "\U{E9}", []))
  {
    OneAccentedCharacter();
  }

  /** One location: walked and recorded, skipped, or the panic that ends the run. */
  function LocationStep(t: Trace, root: Node, loc: Location): Trace
  {
    if t.failure.Some? || !HasComment(loc) then t
    else match Walk(loc.path, root)
      case Err(e) => Trace(t.calls, Some(e))
      case Ok(chain) => Trace(t.calls + [Call(chain, loc.leading)], None)
  }

  /** The locations of one file, in order. */
  function LocationsTrace(root: Node, locs: seq<Location>): Trace
    decreases |locs|
  {
    if locs == [] then Trace([], None)
    else LocationStep(LocationsTrace(root, locs[..|locs| - 1]), root, locs[|locs| - 1])
  }

  /** The file is one of `FileToGenerate`. */
  predicate Generated(gen: seq<string>, file: ProtoFile)
  {
    file.name in gen
  }

  /** One file: skipped unless it is to be generated, else all its locations. */
  function FileStep(t: Trace, gen: seq<string>, file: ProtoFile): Trace
  {
    if t.failure.Some? || !Generated(gen, file) then t
    else
      var inFile := LocationsTrace(file.root, file.locations);
      Trace(t.calls + inFile.calls, inFile.failure)
  }

  /** The files, in order. */
  function FilesTrace(gen: seq<string>, files: seq<ProtoFile>): Trace
    decreases |files|
  {
    if files == [] then Trace([], None)
    else FileStep(FilesTrace(gen, files[..|files| - 1]), gen, files[|files| - 1])
  }

  /** Everything associate_comments does for a request. */
  function Collect(req: Request): Trace
  {
    FilesTrace(req.fileToGenerate, req.protoFile)
  }

  /** The documentation tree, seen only through the calls it receives. */
  class DocTree {
    var calls: seq<Call>

    constructor ()
      ensures calls == []
    {
      calls := [];
    }

    /** `SetComment`: records the chain and the comment. */
    method SetComment(chain: seq<string>, comment: string)
      modifies this
      ensures calls == old(calls) + [Call(chain, comment)]
    {
      calls := calls + [Call(chain, comment)];
    }
  }

  /** Once the run has panicked, nothing more happens. */
  lemma {:induction false} FilesAfterFailure(gen: seq<string>, files: seq<ProtoFile>, k: nat)
    requires k <= |files|
    requires FilesTrace(gen, files[..k]).failure.Some?
    ensures FilesTrace(gen, files) == FilesTrace(gen, files[..k])
    decreases |files| - k
  {
    if k < |files| {
      assert files[..k + 1][..k] == files[..k];
      FilesAfterFailure(gen, files, k + 1);
    } else {
      assert files[..k] == files;
    }
  }

  /** The trace of the first `i + 1` files extends that of the first `i` by one file. */
  lemma FilesTraceStep(gen: seq<string>, files: seq<ProtoFile>, i: nat)
    requires i < |files|
    ensures FilesTrace(gen, files[..i + 1]) == FileStep(FilesTrace(gen, files[..i]), gen, files[i])
  {
    assert files[..i + 1][..i] == files[..i];
  }

  /** The trace of the first `j + 1` locations extends that of the first `j` by one location. */
  lemma LocationsTraceStep(root: Node, locs: seq<Location>, j: nat)
    requires j < |locs|
    ensures LocationsTrace(root, locs[..j + 1]) == LocationStep(LocationsTrace(root, locs[..j]), root, locs[j])
  {
    assert locs[..j + 1][..j] == locs[..j];
  }

  lemma {:induction false} LocationsAfterFailure(root: Node, locs: seq<Location>, k: nat)
    requires k <= |locs|
    requires LocationsTrace(root, locs[..k]).failure.Some?
    ensures LocationsTrace(root, locs) == LocationsTrace(root, locs[..k])
    decreases |locs| - k
  {
    if k < |locs| {
      assert locs[..k + 1][..k] == locs[..k];
      LocationsAfterFailure(root, locs, k + 1);
    } else {
      assert locs[..k] == locs;
    }
  }

  /**
   * The inner loop of associate_comments over the locations of one file:
   * each location that carries a comment is walked and its chain passed with
   * the leading comment to SetComment; a panic of the walker stops it.
   */
  method CommentLocations(dt: DocTree, root: Node, locs: seq<Location>) returns (failure: Option<Failure>)
    modifies dt
    ensures dt.calls == old(dt.calls) + LocationsTrace(root, locs).calls
    ensures failure == LocationsTrace(root, locs).failure
  {
    var j := 0;
    while j < |locs|
      invariant 0 <= j <= |locs|
      invariant LocationsTrace(root, locs[..j]).failure == None
      invariant dt.calls == old(dt.calls) + LocationsTrace(root, locs[..j]).calls
    {
      var location := locs[j];
      LocationsTraceStep(root, locs, j);
      var lead := location.leading;
      if Utf8Len(lead) > 1 || |location.leadingDetached| > 1 {
        var namePath := Walk(location.path, root);
        if namePath.Err? {
          LocationsAfterFailure(root, locs, j + 1);
          return Some(namePath.error);
        }
        dt.SetComment(namePath.value, lead);
      }
      j := j + 1;
    }
    assert locs[..j] == locs;
    return None;
  }

  /**
   * associate_comments: the files in order, each skipped unless its name is
   * in `FileToGenerate`, and the locations of every kept file.  A panic of
   * the walker ends the run (returned here as the failure); the calls
   * already made stay made.
   */
  method AssociateComments(dt: DocTree, req: Request) returns (failure: Option<Failure>)
    modifies dt
    ensures dt.calls == old(dt.calls) + Collect(req).calls
    ensures failure == Collect(req).failure
  {
    var files := req.protoFile;
    var gen := req.fileToGenerate;
    var i := 0;
    while i < |files|
      invariant 0 <= i <= |files|
      invariant FilesTrace(gen, files[..i]).failure == None
      invariant dt.calls == old(dt.calls) + FilesTrace(gen, files[..i]).calls
    {
      var file := files[i];
      ghost var before := FilesTrace(gen, files[..i]);
      FilesTraceStep(gen, files, i);
      var skip := true;
      var g := 0;
      while g < |gen|
        invariant 0 <= g <= |gen|
        invariant skip == (file.name !in gen[..g])
      {
        if file.name == gen[g] {
          skip := false;
        }
        assert gen[..g + 1] == gen[..g] + [gen[g]];
        g := g + 1;
      }
      assert gen[..g] == gen;
      if !skip {
        var inFile := CommentLocations(dt, file.root, file.locations);
        ConcatAssoc(old(dt.calls), before.calls, LocationsTrace(file.root, file.locations).calls);
        if inFile.Some? {
          FilesAfterFailure(gen, files, i + 1);
          return inFile;
        }
      }
      i := i + 1;
    }
    assert files[..i] == files;
    return None;
  }

  // ---- What the collector forwards ----

  /** The locations that carry a comment, in order. */
  function Commented(locs: seq<Location>): (r: seq<Location>)
    ensures |r| <= |locs|
    ensures forall loc :: loc in r ==> loc in locs && HasComment(loc)
    decreases |locs|
  {
    if locs == [] then []
    else
      var last := locs[|locs| - 1];
      Commented(locs[..|locs| - 1]) + (if HasComment(last) then [last] else [])
  }

  /** The files that are to be generated, in order. */
  function GeneratedFiles(gen: seq<string>, files: seq<ProtoFile>): (r: seq<ProtoFile>)
    ensures forall f :: f in r ==> f in files && Generated(gen, f)
    decreases |files|
  {
    if files == [] then []
    else
      var last := files[|files| - 1];
      GeneratedFiles(gen, files[..|files| - 1]) + (if Generated(gen, last) then [last] else [])
  }

  /** The number of commented locations over the files to be generated. */
  function CommentCount(gen: seq<string>, files: seq<ProtoFile>): nat
    decreases |files|
  {
    if files == [] then 0
    else
      var last := files[|files| - 1];
      CommentCount(gen, files[..|files| - 1])
        + (if Generated(gen, last) then |Commented(last.locations)| else 0)
  }

  /** Locations without a comment are never walked: dropping them changes nothing. */
  lemma {:induction false} UncommentedLocationsIgnored(root: Node, locs: seq<Location>)
    ensures LocationsTrace(root, locs) == LocationsTrace(root, Commented(locs))
    decreases |locs|
  {
    if locs != [] {
      var init, last := locs[..|locs| - 1], locs[|locs| - 1];
      UncommentedLocationsIgnored(root, init);
      if HasComment(last) {
        var c := Commented(locs);
        assert c == Commented(init) + [last];
        assert c[..|c| - 1] == Commented(init);
      } else {
        assert Commented(locs) == Commented(init);
      }
    }
  }

  /** Files outside `FileToGenerate` are never processed: dropping them changes nothing. */
  lemma {:induction false} OnlyGeneratedFilesProcessed(gen: seq<string>, files: seq<ProtoFile>)
    ensures FilesTrace(gen, files) == FilesTrace(gen, GeneratedFiles(gen, files))
    decreases |files|
  {
    if files != [] {
      var init, last := files[..|files| - 1], files[|files| - 1];
      OnlyGeneratedFilesProcessed(gen, init);
      if Generated(gen, last) {
        var g := GeneratedFiles(gen, files);
        assert g == GeneratedFiles(gen, init) + [last];
        assert g[..|g| - 1] == GeneratedFiles(gen, init);
      } else {
        assert GeneratedFiles(gen, files) == GeneratedFiles(gen, init);
      }
    }
  }

  /** A call, or the panic, came from walking this commented location of this generated file. */
  ghost predicate FromLocation(gen: seq<string>, files: seq<ProtoFile>, r: Result<seq<string>, Failure>, comment: string)
  {
    exists f, loc :: f in files && Generated(gen, f) && loc in f.locations && HasComment(loc)
                  && Walk(loc.path, f.root) == r && comment == loc.leading
  }

  lemma {:induction false} LocationCallsSourced(root: Node, locs: seq<Location>)
    ensures forall c :: c in LocationsTrace(root, locs).calls ==>
      exists loc :: loc in locs && HasComment(loc) && Walk(loc.path, root) == Ok(c.chain) && c.comment == loc.leading
    ensures LocationsTrace(root, locs).failure.Some? ==>
      exists loc :: loc in locs && HasComment(loc) && Walk(loc.path, root) == Err(LocationsTrace(root, locs).failure.value)
    decreases |locs|
  {
    if locs != [] {
      var init, last := locs[..|locs| - 1], locs[|locs| - 1];
      LocationCallsSourced(root, init);
      assert forall loc :: loc in init ==> loc in locs;
    }
  }

  /**
   * Every SetComment call carries the chain the walker returned for a
   * commented location of a generated file, and that location's leading
   * comment (never its detached ones); a panic likewise comes from walking
   * such a location.
   */
  lemma {:induction false} CallsComeFromCommentedLocations(gen: seq<string>, files: seq<ProtoFile>)
    ensures forall c :: c in FilesTrace(gen, files).calls ==> FromLocation(gen, files, Ok(c.chain), c.comment)
    ensures FilesTrace(gen, files).failure.Some? ==>
      exists comment :: FromLocation(gen, files, Err(FilesTrace(gen, files).failure.value), comment)
    decreases |files|
  {
    if files != [] {
      var init, last := files[..|files| - 1], files[|files| - 1];
      CallsComeFromCommentedLocations(gen, init);
      var t := FilesTrace(gen, init);
      forall c | c in t.calls
        ensures FromLocation(gen, files, Ok(c.chain), c.comment)
      {
        var f, loc :| f in init && Generated(gen, f) && loc in f.locations && HasComment(loc)
                      && Walk(loc.path, f.root) == Ok(c.chain) && c.comment == loc.leading;
        assert f in files;
      }
      if t.failure.Some? {
        var comment, f, loc :| f in init && Generated(gen, f) && loc in f.locations && HasComment(loc)
                               && Walk(loc.path, f.root) == Err(t.failure.value) && comment == loc.leading;
        assert f in files;
        assert FromLocation(gen, files, Err(t.failure.value), comment);
      }
      if t.failure.None? && Generated(gen, last) {
        LocationCallsSourced(last.root, last.locations);
        var inFile := LocationsTrace(last.root, last.locations);
        forall c | c in inFile.calls
          ensures FromLocation(gen, files, Ok(c.chain), c.comment)
        {
          var loc :| loc in last.locations && HasComment(loc) && Walk(loc.path, last.root) == Ok(c.chain)
                     && c.comment == loc.leading;
          assert last in files;
        }
        if inFile.failure.Some? {
          var loc :| loc in last.locations && HasComment(loc) && Walk(loc.path, last.root) == Err(inFile.failure.value);
          assert last in files;
          assert FromLocation(gen, files, Err(inFile.failure.value), loc.leading);
        }
      }
    }
  }

  lemma {:induction false} LocationCallCount(root: Node, locs: seq<Location>)
    requires LocationsTrace(root, locs).failure.None?
    ensures |LocationsTrace(root, locs).calls| == |Commented(locs)|
    decreases |locs|
  {
    if locs != [] {
      LocationCallCount(root, locs[..|locs| - 1]);
    }
  }

  /** A run that does not panic makes one call per commented location of every generated file. */
  lemma {:induction false} EveryCommentForwarded(gen: seq<string>, files: seq<ProtoFile>)
    requires FilesTrace(gen, files).failure.None?
    ensures |FilesTrace(gen, files).calls| == CommentCount(gen, files)
    decreases |files|
  {
    if files != [] {
      var init, last := files[..|files| - 1], files[|files| - 1];
      EveryCommentForwarded(gen, init);
      if Generated(gen, last) {
        LocationCallCount(last.root, last.locations);
      }
    }
  }
}
