/** Path normalisation (`sanitize_path`, src/modules/static_handler.cpp). */
module PathSanitizer {
  import opened Wrappers
  import opened Text

  predicate IsSkipped(segment: string) {
    segment == "" || segment == "."
  }

  predicate IsName(segment: string) {
    !IsSkipped(segment) && segment != ".."
  }

  /** Follows the segments from the directory `stack`; `None` when one climbs above the root. */
  function Walk(segments: seq<string>, stack: seq<string>): Option<seq<string>> {
    if segments == [] then Some(stack)
    else
      var segment, rest := segments[0], segments[1..];
      if IsSkipped(segment) then Walk(rest, stack)
      else if segment != ".." then Walk(rest, stack + [segment])
      else if stack == [] then None
      else Walk(rest, stack[..|stack| - 1])
  }

  /** The segments joined by slashes. */
  function Join(parts: seq<string>): string {
    if parts == [] then ""
    else if |parts| == 1 then parts[0]
    else Join(parts[..|parts| - 1]) + "/" + parts[|parts| - 1]
  }

  function Sanitize(path: string): string {
    match Walk(Split(path, '/'), [])
    case None => ""
    case Some(stack) => "/" + Join(stack)
  }

  // ---------------------------------------------------------------------------------------------
  // When a path is blocked
  // ---------------------------------------------------------------------------------------------

  function Names(segments: seq<string>): nat {
    if segments == [] then 0 else (if segments[0] !in ["", ".", ".."] then 1 else 0) + Names(segments[1..])
  }

  function Ups(segments: seq<string>): nat {
    if segments == [] then 0 else (if segments[0] == ".." then 1 else 0) + Ups(segments[1..])
  }

  /** Some prefix climbs more than `depth` levels above where it starts. */
  ghost predicate Climbs(segments: seq<string>, depth: nat) {
    exists k :: 0 <= k <= |segments| && ClimbsAt(segments, depth, k)
  }

  ghost predicate ClimbsAt(segments: seq<string>, depth: nat, k: nat)
    requires k <= |segments|
  {
    Ups(segments[..k]) > depth + Names(segments[..k])
  }

  lemma ClimbsLater(segments: seq<string>, depth: nat, k: nat)
    requires 0 < k <= |segments|
    ensures
      var segment, rest := segments[0], segments[1..];
      Ups(segments[..k]) as int - Names(segments[..k]) as int ==
      Ups(rest[..k - 1]) as int - Names(rest[..k - 1]) as int
      + (if segment == ".." then 1 else 0) - (if IsName(segment) then 1 else 0)
  {
    assert segments[..k][1..] == segments[1..][..k - 1];
  }

  /** A path is blocked exactly when some prefix has more ".." than names. */
  lemma {:induction false} BlockedIffClimbs(segments: seq<string>, stack: seq<string>)
    ensures Walk(segments, stack).None? <==> Climbs(segments, |stack|)
    decreases |segments|
  {
    assert segments != [] || !Climbs(segments, |stack|);
    if segments != [] {
      var segment, rest := segments[0], segments[1..];
      forall k | 0 < k <= |segments|
        ensures ClimbsAt(segments, |stack|, k) <==>
                Ups(rest[..k - 1]) as int - Names(rest[..k - 1]) as int >
                |stack| + (if IsName(segment) then 1 else 0) - (if segment == ".." then 1 else 0)
      {
        ClimbsLater(segments, |stack|, k);
      }
      assert !ClimbsAt(segments, |stack|, 0);
      if segment == ".." && stack == [] {
        assert Ups(rest[..0]) == 0 && Names(rest[..0]) == 0;
        assert ClimbsAt(segments, |stack|, 1);
      } else {
        var next :=
          if IsName(segment) then stack + [segment] else if segment == ".." then stack[..|stack| - 1] else stack;
        BlockedIffClimbs(rest, next);
        forall k | 0 < k <= |segments|
          ensures ClimbsAt(segments, |stack|, k) <==> ClimbsAt(rest, |next|, k - 1)
        {
        }
        if Climbs(rest, |next|) {
          var j :| 0 <= j <= |rest| && ClimbsAt(rest, |next|, j);
          assert ClimbsAt(segments, |stack|, j + 1);
        }
        if Climbs(segments, |stack|) {
          var k :| 0 <= k <= |segments| && ClimbsAt(segments, |stack|, k);
          assert ClimbsAt(rest, |next|, k - 1);
        }
      }
    }
  }

  // ---------------------------------------------------------------------------------------------
  // Which segments are left
  // ---------------------------------------------------------------------------------------------

  /** Read from the right: the names no later ".." cancels, and the number of ".." still to be cancelled. */
  function Uncancelled(segments: seq<string>): (seq<string>, nat) {
    if segments == [] then ([], 0)
    else
      var (names, ups) := Uncancelled(segments[1..]);
      if segments[0] == "" || segments[0] == "." then (names, ups)
      else if segments[0] == ".." then (names, ups + 1)
      else if ups > 0 then (names, ups - 1)
      else ([segments[0]] + names, 0)
  }

  /** Walking from the left with a stack leaves the names that reading from the right does not cancel. */
  lemma {:induction false} WalkLeavesUncancelled(segments: seq<string>, stack: seq<string>)
    ensures
      var (names, ups) := Uncancelled(segments);
      Walk(segments, stack) == if ups <= |stack| then Some(stack[..|stack| - ups] + names) else None
    decreases |segments|
  {
    if segments == [] {
      assert stack[..|stack|] + [] == stack;
    } else {
      var segment, rest := segments[0], segments[1..];
      var (names, ups) := Uncancelled(rest);
      if IsSkipped(segment) {
        WalkLeavesUncancelled(rest, stack);
      } else if segment != ".." {
        WalkLeavesUncancelled(rest, stack + [segment]);
        if ups == 0 {
          assert (stack + [segment])[..|stack| + 1] + names == stack[..|stack|] + ([segment] + names);
        } else if ups <= |stack| + 1 {
          assert (stack + [segment])[..|stack| + 1 - ups] == stack[..|stack| - (ups - 1)];
        }
      } else if stack != [] {
        WalkLeavesUncancelled(rest, stack[..|stack| - 1]);
        if ups <= |stack| - 1 {
          assert stack[..|stack| - 1][..|stack| - 1 - ups] == stack[..|stack| - (ups + 1)];
        }
      }
    }
  }

  // ---------------------------------------------------------------------------------------------
  // The result
  // ---------------------------------------------------------------------------------------------

  ghost predicate CleanPart(part: string) {
    part !in ["", ".", ".."] && '/' !in part
  }

  ghost predicate CleanParts(parts: seq<string>) {
    forall i :: 0 <= i < |parts| ==> CleanPart(parts[i])
  }

  lemma {:induction false} WalkIsClean(segments: seq<string>, stack: seq<string>)
    requires CleanParts(stack) && forall i :: 0 <= i < |segments| ==> '/' !in segments[i]
    ensures Walk(segments, stack).Some? ==> CleanParts(Walk(segments, stack).value)
    decreases |segments|
  {
    if segments != [] {
      var segment, rest := segments[0], segments[1..];
      if IsSkipped(segment) {
        WalkIsClean(rest, stack);
      } else if segment != ".." {
        WalkIsClean(rest, stack + [segment]);
      } else if stack != [] {
        WalkIsClean(rest, stack[..|stack| - 1]);
      }
    }
  }

  lemma {:induction false} JoinFirst(parts: seq<string>)
    requires |parts| > 1
    ensures Join(parts) == parts[0] + "/" + Join(parts[1..])
  {
    var init, last := parts[..|parts| - 1], parts[|parts| - 1];
    if |parts| > 2 {
      JoinFirst(init);
      assert init[1..] == parts[1..][..|parts| - 2];
    } else {
      assert parts[1..] == [last];
    }
  }

  lemma {:induction false} SplitJoin(parts: seq<string>)
    requires CleanParts(parts)
    ensures Split(Join(parts), '/') == parts
    decreases |parts|
  {
    if |parts| == 1 {
      assert CleanPart(parts[0]);
      SplitLast(parts[0], '/');
    } else if |parts| > 1 {
      assert CleanPart(parts[0]);
      JoinFirst(parts);
      SplitFirst(parts[0], '/', Join(parts[1..]));
      SplitJoin(parts[1..]);
    }
  }

  lemma {:induction false} WalkOfNames(parts: seq<string>, stack: seq<string>)
    requires CleanParts(parts)
    ensures Walk(parts, stack) == Some(stack + parts)
    decreases |parts|
  {
    if parts == [] {
      assert stack + parts == stack;
    } else {
      assert CleanPart(parts[0]);
      WalkOfNames(parts[1..], stack + [parts[0]]);
      assert stack + [parts[0]] + parts[1..] == stack + parts;
    }
  }

  lemma SanitizeJoined(parts: seq<string>)
    requires CleanParts(parts)
    ensures Sanitize("/" + Join(parts)) == "/" + Join(parts)
  {
    assert "/" + Join(parts) == "" + ['/'] + Join(parts);
    SplitFirst("", '/', Join(parts));
    SplitJoin(parts);
    WalkOfNames(parts, []);
    assert ([""] + parts)[1..] == parts;
    assert [] + parts == parts;
  }

  /**
   What `sanitize_path` promises: it is blocked iff some prefix climbs above the root; otherwise the
   result is "/" and the uncancelled names, all of them clean, and sanitising it again changes nothing.
   */
  lemma SanitizeIsCanonical(path: string)
    ensures Sanitize(path) == "" <==> Climbs(Split(path, '/'), 0)
    ensures Sanitize(path) != "" ==>
              && Sanitize(path) == "/" + Join(Uncancelled(Split(path, '/')).0)
              && CleanParts(Uncancelled(Split(path, '/')).0)
              && Sanitize(Sanitize(path)) == Sanitize(path)
  {
    var segments := Split(path, '/');
    var stack: seq<string> := [];
    BlockedIffClimbs(segments, stack);
    WalkLeavesUncancelled(segments, stack);
    SplitPieces(path, '/');
    WalkIsClean(segments, stack);
    if Sanitize(path) != "" {
      assert stack[..0] + Uncancelled(segments).0 == Uncancelled(segments).0;
      SanitizeJoined(Uncancelled(segments).0);
    }
  }

  // ---------------------------------------------------------------------------------------------
  // The loop
  // ---------------------------------------------------------------------------------------------

  /** The source's loop: `depth` counts the levels and `parts` holds the names. */
  method SanitizePath(requestPath: string) returns (clean: string)
    ensures clean == Sanitize(requestPath)
  {
    var parts: seq<string> := [];
    var depth := 0;
    var stream := requestPath;
    while stream != ""
      invariant depth == |parts|
      invariant Walk(Split(stream, '/'), parts) == Walk(Split(requestPath, '/'), [])
      decreases |stream|
    {
      var slash := FindChar(stream, '/', 0);
      var segment := if slash.Some? then stream[..slash.value] else stream;
      assert Split(stream, '/')[0] == segment;
      stream := if slash.Some? then stream[slash.value + 1..] else "";
      if segment == "" || segment == "." {
        continue;
      }
      if segment == ".." {
        depth := depth - 1;
        if depth < 0 {
          return "";
        }
        if parts != [] {
          parts := parts[..|parts| - 1];
        }
      } else {
        depth := depth + 1;
        parts := parts + [segment];
      }
    }
    clean := "/";
    for i := 0 to |parts|
      invariant clean == "/" + Join(parts[..i])
    {
      assert parts[..i + 1][..i] == parts[..i];
      if i > 0 {
        clean := clean + "/";
      }
      clean := clean + parts[i];
    }
    assert parts[..|parts|] == parts;
  }
}
