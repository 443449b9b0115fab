/** Project-relative paths: normalizeRelativePath of src/core/snapshot.js. */
module Paths {
  import opened Basics

  function Split(s: string): (parts: seq<string>)
    ensures |parts| > 0
  {
    if s == "" then [""]
    else
      var rest := Split(s[1..]);
      if s[0] == '/' then [""] + rest else [[s[0]] + rest[0]] + rest[1..]
  }

  lemma {:induction false} SplitsAtSlashes(s: string)
    ensures forall part :: part in Split(s) ==> '/' !in part
  {
    if s != "" {
      SplitsAtSlashes(s[1..]);
    }
  }

  function Join(parts: seq<string>): string {
    if |parts| == 0 then ""
    else if |parts| == 1 then parts[0]
    else parts[0] + "/" + Join(parts[1..])
  }

  /** path.resolve on the segments below an absolute directory. */
  function Resolve(base: seq<string>, parts: seq<string>): seq<string>
    decreases |parts|
  {
    if parts == [] then base
    else if parts[0] == "" || parts[0] == "." then Resolve(base, parts[1..])
    else if parts[0] == ".." then
      Resolve(if base == [] then [] else base[..|base| - 1], parts[1..])
    else Resolve(base + [parts[0]], parts[1..])
  }

  /** Project roots are absolute and already resolved; `root` lists their segments. */
  function NormalizeRelativePath(root: seq<string>, path: string): Result<string> {
    if path == "" then Err(UsageError)
    else if '\0' in path || '\\' in path then Err(SafetyRefusal)
    else if path[0] == '/' then Err(SafetyRefusal)
    else
      var absolute := Resolve(root, Split(path));
      if !(root <= absolute) || absolute == root then Err(SafetyRefusal)
      else Ok(Join(absolute[|root|..]))
  }

  /** The path either is refused or is the one it names: true of whatever a walk lists. */
  predicate Unrewritten(root: seq<string>, path: string) {
    NormalizeRelativePath(root, path).Ok? ==> NormalizeRelativePath(root, path).value == path
  }

  predicate CleanPart(part: string) {
    part != "" && part != "." && part != ".." && '/' !in part && '\\' !in part && '\0' !in part
  }

  predicate CleanParts(parts: seq<string>) {
    forall part :: part in parts ==> CleanPart(part)
  }

  /** assertNormalizedRelativePosixPath of src/contracts/executor.js. */
  predicate IsNormalized(path: string) {
    CleanParts(Split(path))
  }

  lemma {:induction false} SplitSegment(part: string)
    requires '/' !in part
    ensures Split(part) == [part]
  {
    if part != "" {
      assert part[0] in part && forall c :: c in part[1..] ==> c in part;
      SplitSegment(part[1..]);
      assert part == [part[0]] + part[1..];
    }
  }

  lemma {:induction false} SplitPrefix(part: string, s: string)
    requires '/' !in part
    ensures Split(part + "/" + s) == [part] + Split(s)
  {
    var whole := part + "/" + s;
    if part == "" {
      assert whole[1..] == s;
    } else {
      assert part[0] in part && forall c :: c in part[1..] ==> c in part;
      assert whole[1..] == part[1..] + "/" + s;
      SplitPrefix(part[1..], s);
      assert part == [part[0]] + part[1..];
      assert ([part[1..]] + Split(s))[1..] == Split(s);
    }
  }

  lemma {:induction false} SplitJoin(parts: seq<string>)
    requires |parts| > 0 && forall part :: part in parts ==> '/' !in part
    ensures Split(Join(parts)) == parts
  {
    if |parts| == 1 {
      SplitSegment(parts[0]);
    } else {
      SplitJoin(parts[1..]);
      SplitPrefix(parts[0], Join(parts[1..]));
    }
  }

  lemma {:induction false} JoinSplit(s: string)
    ensures Join(Split(s)) == s
  {
    if s != "" {
      var rest := Split(s[1..]);
      JoinSplit(s[1..]);
      if s[0] == '/' {
        assert ([""] + rest)[1..] == rest;
      } else {
        var parts := [[s[0]] + rest[0]] + rest[1..];
        assert parts[1..] == rest[1..];
        assert s == [s[0]] + s[1..];
      }
    }
  }

  lemma {:induction false} ResolveClean(base: seq<string>, parts: seq<string>)
    requires CleanParts(parts)
    ensures Resolve(base, parts) == base + parts
    decreases |parts|
  {
    if parts != [] {
      assert parts[0] in parts;
      ResolveClean(base + [parts[0]], parts[1..]);
      assert base + [parts[0]] + parts[1..] == base + parts;
    }
  }

  predicate CleanFrom(parts: seq<string>, k: nat) {
    forall i :: k <= i < |parts| ==> CleanPart(parts[i])
  }

  /** Whatever `..` pops, segments past the first `k` have come from the path. */
  lemma {:induction false} ResolvedIsClean(base: seq<string>, parts: seq<string>, k: nat)
    requires CleanFrom(base, k)
    requires forall part :: part in parts ==> '/' !in part && '\\' !in part && '\0' !in part
    ensures CleanFrom(Resolve(base, parts), k)
    decreases |parts|
  {
    if parts != [] {
      assert parts[0] in parts;
      if parts[0] == "" || parts[0] == "." {
        ResolvedIsClean(base, parts[1..], k);
      } else if parts[0] == ".." {
        ResolvedIsClean(if base == [] then [] else base[..|base| - 1], parts[1..], k);
      } else {
        ResolvedIsClean(base + [parts[0]], parts[1..], k);
      }
    }
  }

  lemma {:induction false} PartCharacters(s: string, c: char)
    requires c !in s
    ensures forall part :: part in Split(s) ==> c !in part
  {
    if s != "" {
      PartCharacters(s[1..], c);
    }
  }

  lemma {:induction false} CleanCharacters(parts: seq<string>, c: char)
    requires CleanParts(parts) && (c == '\\' || c == '\0')
    ensures c !in Join(parts)
  {
    if |parts| > 0 {
      assert parts[0] in parts;
      CleanCharacters(parts[1..], c);
    }
  }

  /** A path that passes the executor contract is left as it is. */
  lemma NormalizedIsFixed(root: seq<string>, path: string)
    requires IsNormalized(path)
    ensures NormalizeRelativePath(root, path) == Ok(path)
  {
    var parts := Split(path);
    JoinSplit(path);
    assert parts[0] in parts;
    CleanCharacters(parts, '\\');
    CleanCharacters(parts, '\0');
    if path != "" && path[0] == '/' {
      assert false;
    }
    ResolveClean(root, parts);
    assert (root + parts)[|root|..] == parts;
  }

  /** What normalization returns passes the executor contract, so normalizing again changes nothing. */
  lemma NormalizeIsIdempotent(root: seq<string>, path: string)
    requires NormalizeRelativePath(root, path).Ok?
    ensures var normal := NormalizeRelativePath(root, path).value;
            IsNormalized(normal) && NormalizeRelativePath(root, normal) == Ok(normal)
  {
    SplitsAtSlashes(path);
    PartCharacters(path, '\\');
    PartCharacters(path, '\0');
    ResolvedIsClean(root, Split(path), |root|);
    var absolute := Resolve(root, Split(path));
    var rest := absolute[|root|..];
    forall part | part in rest
      ensures CleanPart(part)
    {
      var i :| 0 <= i < |rest| && rest[i] == part;
      assert part == absolute[|root| + i];
    }
    SplitJoin(rest);
    NormalizedIsFixed(root, Join(rest));
  }

  // ---------- the pattern of src/contracts/context-pack.js ----------

  predicate BreaksLine(c: char) {
    c == '\n' || c == '\r' || c == '\U{2028}' || c == '\U{2029}'
  }

  predicate OnOneLine(parts: seq<string>) {
    forall part, c :: part in parts && c in part ==> !BreaksLine(c)
  }

  predicate EmptyOrDots(part: string) {
    part == "" || part == "." || part == ".."
  }

  /**
   * NORMALIZED_PATH_PATTERN and no slash at the end. The look-aheads for empty segments and dots stop at
   * the first line break.
   */
  predicate PatternAccepts(path: string) {
    var parts := Split(path);
    && '\\' !in path && '\0' !in path
    && parts[0] != "" && parts[|parts| - 1] != ""
    && forall k :: 0 <= k < |parts| && OnOneLine(parts[..k]) ==> !EmptyOrDots(parts[k])
  }

  lemma {:induction false} CharacterInPart(s: string, c: char)
    requires c in s && c != '/'
    ensures exists part :: part in Split(s) && c in part
  {
    var rest := Split(s[1..]);
    if s[0] == c {
      assert Split(s)[0] == [c] + rest[0] && c in Split(s)[0];
    } else {
      assert c in s[1..];
      CharacterInPart(s[1..], c);
      var part :| part in rest && c in part;
      if s[0] == '/' {
        assert part in Split(s);
      } else if part == rest[0] {
        assert Split(s)[0] == [s[0]] + rest[0] && c in Split(s)[0];
      } else {
        var i :| 0 <= i < |rest| && rest[i] == part;
        assert Split(s)[i] == part;
      }
    }
  }

  /** No segment after a line break is empty or dots. */
  predicate CleanAfterBreaks(parts: seq<string>) {
    forall k :: 0 <= k < |parts| && !OnOneLine(parts[..k]) ==> !EmptyOrDots(parts[k])
  }

  lemma NormalizedIsAccepted(path: string)
    requires IsNormalized(path)
    ensures PatternAccepts(path) && CleanAfterBreaks(Split(path))
  {
    hide Split, OnOneLine;
    var parts := Split(path);
    forall k | 0 <= k < |parts|
      ensures CleanPart(parts[k])
    {
      assert parts[k] in parts;
    }
    if '\\' in path { CharacterInPart(path, '\\'); }
    if '\0' in path { CharacterInPart(path, '\0'); }
  }

  lemma AcceptedIsNormalized(path: string)
    requires PatternAccepts(path) && CleanAfterBreaks(Split(path))
    ensures IsNormalized(path)
  {
    hide Split, OnOneLine;
    var parts := Split(path);
    SplitsAtSlashes(path);
    PartCharacters(path, '\\');
    PartCharacters(path, '\0');
    forall part | part in parts
      ensures CleanPart(part)
    {
      var k :| 0 <= k < |parts| && parts[k] == part;
      assert OnOneLine(parts[..k]) || !OnOneLine(parts[..k]);
    }
  }

  /**
   * Every normalized path is accepted; what the pattern accepts is a normalized path if and only if no
   * segment after a line break is empty or dots.
   */
  lemma PatternAcceptsExactly(path: string)
    ensures IsNormalized(path) <==> PatternAccepts(path) && CleanAfterBreaks(Split(path))
  {
    hide *;
    if IsNormalized(path) { NormalizedIsAccepted(path); }
    if PatternAccepts(path) && CleanAfterBreaks(Split(path)) { AcceptedIsNormalized(path); }
  }

  lemma ThreeParts(first: string, second: string, third: string)
    requires '/' !in first && '/' !in second && '/' !in third
    ensures Split(first + "/" + second + "/" + third) == [first, second, third]
  {
    hide Split;
    SplitSegment(third);
    SplitPrefix(second, third);
    SplitPrefix(first, second + "/" + third);
    assert first + "/" + (second + "/" + third) == first + "/" + second + "/" + third;
  }

  /** Behind a line break the pattern lets `..` through. */
  lemma DotsBehindLineBreak()
    ensures PatternAccepts("a\nb" + "/" + ".." + "/" + "c") && !IsNormalized("a\nb" + "/" + ".." + "/" + "c")
  {
    hide Split;
    var first := "a\nb";
    ThreeParts(first, "..", "c");
    var parts := [first, "..", "c"];
    assert parts[1] in parts && !CleanPart(parts[1]);
    assert first[1] in first && BreaksLine(first[1]);
    forall k | 0 < k < |parts|
      ensures !OnOneLine(parts[..k])
    {
      assert parts[..k][0] == first && parts[..k][0] in parts[..k];
    }
  }
}
