/** The candidate-file loader shared by the file transforms, and environment lookup with a default. */
module Utils {
  import opened Values
  import opened ConfigObject

  /** The `files` argument of `load`: omitted, a single path, or a list of paths. */
  datatype Files = NoFiles | OnePath(path: string) | Paths(paths: seq<string>)

  /** `files || []`, then a string wrapped into a one-element list. An empty string is falsy, so it
      becomes the empty list. */
  function Normalize(files: Files): seq<string> {
    match files
    case NoFiles => []
    case OnePath(p) => if p == "" then [] else [p]
    case Paths(ps) => ps
  }

  /** The filesystem as data: the paths that `fs.statSync` accepts, and the contents of those that
      can be read as files. A path that exists without contents is a directory. */
  datatype FileSystem = FileSystem(existing: set<string>, contents: map<string, string>)

  predicate FileExists(fs: FileSystem, path: string) {
    path in fs.existing
  }

  /** A parser: file text to a value, or the error it throws. */
  type Parser = string -> Result<Value>

  /** The outcome of the selection fold: the path it settles on (`""` for none), and the paths on
      which it consulted `fileExists`, in order. */
  datatype Scan = Scan(chosen: string, probed: seq<string>)

  /** The reduce over the candidates with accumulator `memo`: while `memo` is empty, each file is
      probed and taken if it exists; once `memo` is set, `!memo &&` skips the probe. */
  function ScanFrom(memo: string, files: seq<string>, fs: FileSystem): Scan
    decreases |files|
  {
    if files == [] then Scan(memo, [])
    else
      var probe := memo == "";
      var next := if probe && FileExists(fs, files[0]) then files[0] else memo;
      var rest := ScanFrom(next, files[1..], fs);
      Scan(rest.chosen, (if probe then [files[0]] else []) + rest.probed)
  }

  /** A candidate the fold settles on: it exists, and it is not the empty string (which would
      leave the accumulator falsy). */
  predicate IsHit(fs: FileSystem, path: string) {
    path != "" && FileExists(fs, path)
  }

  /** Once a file has been chosen, no later candidate is probed and the choice stands. */
  lemma {:induction false} ScanAfterChoice(memo: string, files: seq<string>, fs: FileSystem)
    requires memo != ""
    ensures ScanFrom(memo, files, fs) == Scan(memo, [])
    decreases |files|
  {
    if files != [] {
      ScanAfterChoice(memo, files[1..], fs);
    }
  }

  /** The fold picks the first hit in list order, and probes exactly the candidates up to it. */
  lemma {:induction false} ScanFindsFirstHit(files: seq<string>, fs: FileSystem, i: nat)
    requires i < |files| && IsHit(fs, files[i])
    requires forall j :: 0 <= j < i ==> !IsHit(fs, files[j])
    ensures ScanFrom("", files, fs) == Scan(files[i], files[..i + 1])
    decreases i
  {
    if i == 0 {
      ScanAfterChoice(files[0], files[1..], fs);
    } else {
      assert !IsHit(fs, files[0]);
      forall j | 0 <= j < i - 1 ensures !IsHit(fs, files[1..][j]) {
        assert files[1..][j] == files[j + 1];
      }
      ScanFindsFirstHit(files[1..], fs, i - 1);
      assert files[1..][..i] == files[1..i + 1];
      assert [files[0]] + files[1..i + 1] == files[..i + 1];
    }
  }

  /** Without a hit the fold settles on nothing, after probing every candidate. */
  lemma {:induction false} ScanWithoutHit(files: seq<string>, fs: FileSystem)
    requires forall j :: 0 <= j < |files| ==> !IsHit(fs, files[j])
    ensures ScanFrom("", files, fs) == Scan("", files)
    decreases |files|
  {
    if files != [] {
      forall j | 0 <= j < |files| - 1 ensures !IsHit(fs, files[1..][j]) {
        assert files[1..][j] == files[j + 1];
      }
      ScanWithoutHit(files[1..], fs);
      assert [files[0]] + files[1..] == files;
    }
  }

  /** The fold settles on some file exactly when some candidate is a hit. */
  lemma {:induction false} ScanChoosesIffHit(files: seq<string>, fs: FileSystem)
    ensures ScanFrom("", files, fs).chosen != "" <==> exists j :: 0 <= j < |files| && IsHit(fs, files[j])
    decreases |files|
  {
    if files != [] {
      if IsHit(fs, files[0]) {
        ScanAfterChoice(files[0], files[1..], fs);
      } else {
        ScanChoosesIffHit(files[1..], fs);
        if exists j :: 0 <= j < |files| && IsHit(fs, files[j]) {
          var j :| 0 <= j < |files| && IsHit(fs, files[j]);
          assert files[1..][j - 1] == files[j];
        }
        if exists j :: 0 <= j < |files| - 1 && IsHit(fs, files[1..][j]) {
          var j :| 0 <= j < |files| - 1 && IsHit(fs, files[1..][j]);
          assert files[1..][j] == files[j + 1];
        }
      }
    }
  }

  /** The transform `load(files, parser)` builds, on normalised candidates: choose a file, read it,
      parse it, and `Object.assign` the parsed value into the incoming configuration. With no
      file it returns the configuration untouched. */
  function LoadResult(files: seq<string>, parser: Parser, fs: FileSystem, s: State): Result<State> {
    var chosen := ScanFrom("", files, fs).chosen;
    if chosen == "" then Ok(s)
    else if chosen !in fs.contents then Err(ReadError(chosen))
    else
      match parser(fs.contents[chosen])
      case Err(e) => Err(e)
      case Ok(v) => AssignResult(s, [v])
  }

  method Load(files: seq<string>, parser: Parser, fs: FileSystem, c: Config?) returns (r: Result<Config?>)
    modifies c
    ensures SnapResult(r) == LoadResult(files, parser, fs, old(Snap(c)))
    ensures r.Ok? ==> r.value == c
    ensures r.Err? ==> Snap(c) == old(Snap(c))
  {
    var chosen := ScanFrom("", files, fs).chosen;
    if chosen == "" {
      return Ok(c);
    }
    if chosen !in fs.contents {
      return Err(ReadError(chosen));
    }
    var parsed := parser(fs.contents[chosen]);
    if parsed.Err? {
      return Err(parsed.error);
    }
    r := ObjectAssign(c, [parsed.value]);
  }

  /** With no candidate on disk the configuration comes back as it was, whatever the parser would
      have done: the parser is never consulted. */
  lemma LoadWithoutHit(files: seq<string>, parser: Parser, fs: FileSystem, s: State)
    requires forall j :: 0 <= j < |files| ==> !IsHit(fs, files[j])
    ensures LoadResult(files, parser, fs, s) == Ok(s)
  {
    ScanWithoutHit(files, fs);
  }

  /** Candidates after the first hit play no part: loading from the list is loading from its prefix
      up to and including that hit. */
  lemma LoadIgnoresLaterCandidates(files: seq<string>, parser: Parser, fs: FileSystem, s: State, i: nat)
    requires i < |files| && IsHit(fs, files[i])
    requires forall j :: 0 <= j < i ==> !IsHit(fs, files[j])
    ensures LoadResult(files, parser, fs, s) == LoadResult(files[..i + 1], parser, fs, s)
  {
    ScanFindsFirstHit(files, fs, i);
    ScanFindsFirstHit(files[..i + 1], fs, i);
  }

  /** A found, readable, parseable file is merged into a writable configuration: parsed keys
      overwrite existing ones and keys absent from the file survive. */
  lemma LoadMerges(files: seq<string>, parser: Parser, fs: FileSystem, m: map<string, Value>, i: nat)
    requires i < |files| && IsHit(fs, files[i])
    requires forall j :: 0 <= j < i ==> !IsHit(fs, files[j])
    requires files[i] in fs.contents && parser(fs.contents[files[i]]).Ok?
    ensures var parsed := OwnProps(parser(fs.contents[files[i]]).value);
      var r := LoadResult(files, parser, fs, Object(m, false));
      && r.Ok? && r.value.Object? && !r.value.frozen
      && r.value.data.Keys == m.Keys + parsed.Keys
      && (forall k :: k in parsed ==> r.value.data[k] == parsed[k])
      && (forall k :: k in m && k !in parsed ==> r.value.data[k] == m[k])
  {
    ScanFindsFirstHit(files, fs, i);
    var v := parser(fs.contents[files[i]]).value;
    assert Merged([v]) == Merged([]) + OwnProps(v);
  }

  /** A parser failure on the chosen file propagates unchanged. */
  lemma LoadPropagatesParseError(files: seq<string>, parser: Parser, fs: FileSystem, s: State, i: nat)
    requires i < |files| && IsHit(fs, files[i])
    requires forall j :: 0 <= j < i ==> !IsHit(fs, files[j])
    requires files[i] in fs.contents && parser(fs.contents[files[i]]).Err?
    ensures LoadResult(files, parser, fs, s) == Err(parser(fs.contents[files[i]]).error)
  {
    ScanFindsFirstHit(files, fs, i);
  }

  /** A single path behaves as the one-element list holding it, and an omitted list as an empty
      one, which passes the configuration through. */
  lemma NormalizeSingleAndAbsent(p: string, parser: Parser, fs: FileSystem, s: State)
    ensures LoadResult(Normalize(OnePath(p)), parser, fs, s) == LoadResult([p], parser, fs, s)
    ensures LoadResult(Normalize(NoFiles), parser, fs, s) == Ok(s)
  {
    if p == "" {
      assert !IsHit(fs, [p][0]);
      ScanWithoutHit([p], fs);
    }
  }

  /** `process.env[name] || defaultValue`: the variable's value when it is set and non-empty,
      otherwise the default (an empty value counts as unset). */
  function GetEnv(env: map<string, string>, name: string, default: string): (v: string)
    ensures name in env && env[name] != "" ==> v == env[name]
    ensures name !in env || env[name] == "" ==> v == default
  {
    if name in env && env[name] != "" then env[name] else default
  }
}
