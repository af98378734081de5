/**
 * Relative paths inside an archive: normalised, and never leading out of it. A path
 * that would lead out, or that is absolute, is refused instead of being repaired.
 */
module PortablePath {
  import opened Prelude
  import opened Texts

  datatype PathError = UnsafePath

  /** The parts between slashes. */
  function Segments(s: string): (r: seq<string>)
    ensures r != [] && forall k | 0 <= k < |r| :: '/' !in r[k]
    decreases |s|
  {
    var end := IndexOf(s, '/', 0);
    if end == |s| then [s] else [s[..end]] + Segments(s[end + 1..])
  }

  function Joined(segments: seq<string>): string {
    if segments == [] then "" else if |segments| == 1 then segments[0] else segments[0] + "/" + Joined(segments[1..])
  }

  /** One more part of a path: dots are dropped, and two dots take the part before away. */
  function Push(stack: seq<string>, segment: string, aboveRoot: bool): seq<string> {
    if segment == "" || segment == "." then stack
    else if segment != ".." then stack + [segment]
    else if stack != [] && stack[|stack| - 1] != ".." then stack[..|stack| - 1]
    else if aboveRoot then stack + [segment]
    else stack
  }

  function Folded(segments: seq<string>, aboveRoot: bool): seq<string> {
    if segments == [] then []
    else Push(Folded(segments[..|segments| - 1], aboveRoot), segments[|segments| - 1], aboveRoot)
  }

  function Normalized(path: string): string {
    if path == "" then "." else
      var absolute := path[0] == '/';
      Assembled(absolute, Joined(Folded(Segments(path), !absolute)), path[|path| - 1] == '/')
  }

  function Assembled(absolute: bool, body: string, trailing: bool): string {
    if body == "" then (if absolute then "/" else if trailing then "./" else ".")
    else (if absolute then "/" else "") + body + (if trailing then "/" else "")
  }

  lemma {:induction false} AssembledRelative(body: string, trailing: bool)
    requires body != ""
    ensures Assembled(false, body, trailing) == body + (if trailing then "/" else "")
  {
    assert "" + body == body;
  }

  function Slashed(path: string): (r: string)
    ensures |r| == |path| && forall k | 0 <= k < |r| :: r[k] == if path[k] == '\\' then '/' else path[k]
  {
    seq(|path|, k requires 0 <= k < |path| => if path[k] == '\\' then '/' else path[k])
  }

  function SafePortableRelative(value: string): Result<string, PathError> {
    if value == "" || '\0' in value then Err(UnsafePath) else
      var normalized := Normalized(Slashed(value));
      if normalized == "." || (normalized != "" && normalized[0] == '/') || normalized == ".." || "../" <= normalized
      then Err(UnsafePath)
      else Ok(normalized)
  }

  // ---------------------------------------------------------------------
  // Proof.

  /** A part that stays where it is. */
  predicate IsPlain(segment: string) {
    segment != "" && segment != "." && segment != ".." && '/' !in segment && '\\' !in segment && '\0' !in segment
  }

  /** Some parts that lead up, and then only parts that stay. */
  ghost predicate IsStack(stack: seq<string>, ups: nat) {
    && ups <= |stack|
    && (forall k | 0 <= k < ups :: stack[k] == "..")
    && (forall k | ups <= k < |stack| :: IsPlain(stack[k]))
  }

  predicate IsClean(segment: string) {
    '/' !in segment && '\\' !in segment && '\0' !in segment
  }

  lemma {:induction false} FoldedIsStack(segments: seq<string>, aboveRoot: bool) returns (ups: nat)
    requires forall k | 0 <= k < |segments| :: IsClean(segments[k])
    ensures IsStack(Folded(segments, aboveRoot), ups)
  {
    ups := 0;
    if segments != [] {
      ups := FoldedIsStack(segments[..|segments| - 1], aboveRoot);
      var stack, last := Folded(segments[..|segments| - 1], aboveRoot), segments[|segments| - 1];
      if last == ".." && aboveRoot && ups == |stack| {
        ups := ups + 1;
      }
    }
  }

  lemma {:induction false} FoldedPlain(segments: seq<string>, aboveRoot: bool)
    requires forall k | 0 <= k < |segments| :: IsPlain(segments[k])
    ensures Folded(segments, aboveRoot) == segments && Folded(segments + [""], aboveRoot) == segments
  {
    assert (segments + [""])[..|segments|] == segments;
    if segments != [] {
      FoldedPlain(segments[..|segments| - 1], aboveRoot);
    }
  }

  lemma {:induction false} SegmentsOfFirst(first: string, rest: string)
    requires '/' !in first
    ensures Segments(first + "/" + rest) == [first] + Segments(rest)
  {
    var s := first + "/" + rest;
    assert forall k | 0 <= k < |first| :: s[k] == first[k] && first[k] in first;
    FirstIndex(s, '/', |first|);
    assert s[..|first|] == first && s[|first| + 1..] == rest;
  }

  lemma {:induction false} SegmentsOfLast(last: string)
    requires '/' !in last
    ensures Segments(last) == [last]
  {
    assert forall k | 0 <= k < |last| :: last[k] in last;
    FirstIndex(last, '/', |last|);
  }

  lemma {:induction false} SegmentsOfJoined(segments: seq<string>)
    requires segments != [] && forall k | 0 <= k < |segments| :: '/' !in segments[k]
    ensures Segments(Joined(segments)) == segments
  {
    if |segments| == 1 {
      SegmentsOfLast(segments[0]);
    } else {
      SegmentsOfJoined(segments[1..]);
      SegmentsOfFirst(segments[0], Joined(segments[1..]));
    }
  }

  lemma {:induction false} JoinedSlash(segments: seq<string>)
    requires segments != []
    ensures Joined(segments) + "/" == Joined(segments + [""])
  {
    if |segments| == 1 {
      var two := segments + [""];
      assert two[1..] == [""] && segments[0] + "/" + "" == segments[0] + "/";
    } else {
      assert (segments + [""])[1..] == segments[1..] + [""];
      JoinedSlash(segments[1..]);
      assert Joined(segments) + "/" == segments[0] + "/" + (Joined(segments[1..]) + "/");
    }
  }

  lemma {:induction false} JoinedChars(segments: seq<string>)
    requires forall k | 0 <= k < |segments| :: IsPlain(segments[k])
    ensures '\\' !in Joined(segments) && '\0' !in Joined(segments)
    ensures segments != []
      ==> Joined(segments) != "" && Joined(segments)[0] != '/' && Joined(segments)[|Joined(segments)| - 1] != '/'
  {
    if |segments| > 1 {
      JoinedChars(segments[1..]);
    }
    if segments != [] {
      assert segments[0][0] in segments[0] && segments[0][|segments[0]| - 1] in segments[0];
    }
  }

  lemma {:induction false} SlashedClean(path: string)
    requires '\0' !in path
    ensures '\\' !in Slashed(path) && '\0' !in Slashed(path)
    ensures '\\' !in path ==> Slashed(path) == path
  {
    var r := Slashed(path);
    forall k | 0 <= k < |r| ensures r[k] != '\\' && r[k] != '\0' {
      assert path[k] in path;
    }
    if '\\' !in path {
      assert forall k | 0 <= k < |r| :: path[k] in path;
    }
  }

  lemma {:induction false} SegmentsClean(s: string)
    requires '\\' !in s && '\0' !in s
    ensures forall k | 0 <= k < |Segments(s)| :: IsClean(Segments(s)[k])
    decreases |s|
  {
    var end := IndexOf(s, '/', 0);
    if end < |s| {
      SegmentsClean(s[end + 1..]);
    }
  }

  lemma {:induction false} LeadingUps(stack: seq<string>, ups: nat, tail: string)
    requires IsStack(stack, ups) && ups > 0 && tail in {"", "/"}
    ensures Joined(stack) + tail == ".." || "../" <= Joined(stack) + tail
  {
    if |stack| > 1 {
      assert Joined(stack) == ".." + "/" + Joined(stack[1..]);
    }
  }

  /** A safe path is made of plain parts, with at most a slash behind them. */
  ghost predicate IsSafe(path: string, parts: seq<string>) {
    && (forall k | 0 <= k < |parts| :: IsPlain(parts[k]))
    && path in {Joined(parts), Joined(parts) + "/", "./"}
    && (path == "./" || parts != [])
  }

  /** What is accepted never leads out of the archive. */
  lemma {:induction false} SafeParts(value: string) returns (parts: seq<string>)
    requires SafePortableRelative(value).Ok?
    ensures IsSafe(SafePortableRelative(value).value, parts)
  {
    var path := Slashed(value);
    SlashedClean(value);
    SegmentsClean(path);
    parts := NormalizedParts(path);
  }

  lemma {:induction false} NormalizedParts(path: string) returns (parts: seq<string>)
    requires path != "" && forall k | 0 <= k < |Segments(path)| :: IsClean(Segments(path)[k])
    requires var r := Normalized(path); r != "." && r[0] != '/' && r != ".." && !("../" <= r)
    ensures IsSafe(Normalized(path), parts)
  {
    var absolute, tail := path[0] == '/', if path[|path| - 1] == '/' then "/" else "";
    var ups := FoldedIsStack(Segments(path), !absolute);
    parts := Folded(Segments(path), !absolute);
    if Joined(parts) == "" {
      EmptyJoined(parts, ups);
    } else if !absolute {
      RelativeNormalized(path, parts, tail);
      RelativeSafe(parts, ups, tail);
    }
  }

  lemma {:induction false} RelativeSafe(parts: seq<string>, ups: nat, tail: string)
    requires IsStack(parts, ups) && Joined(parts) != "" && tail in {"", "/"}
    requires var r := Joined(parts) + tail; r != ".." && !("../" <= r)
    ensures IsSafe(Joined(parts) + tail, parts)
  {
    assert Joined(parts) + "" == Joined(parts);
    if ups > 0 {
      LeadingUps(parts, ups, tail);
    }
  }

  lemma {:induction false} EmptyJoined(stack: seq<string>, ups: nat)
    requires IsStack(stack, ups) && Joined(stack) == ""
    ensures stack == []
  {
  }

  lemma {:induction false} RelativeNormalized(path: string, parts: seq<string>, tail: string)
    requires path != "" && path[0] != '/' && tail == if path[|path| - 1] == '/' then "/" else ""
    requires Folded(Segments(path), true) == parts && Joined(parts) != ""
    ensures Normalized(path) == Joined(parts) + tail
  {
    AssembledRelative(Joined(parts), path[|path| - 1] == '/');
  }

  lemma {:induction false} PlainStays(parts: seq<string>)
    requires parts != [] && forall k | 0 <= k < |parts| :: IsPlain(parts[k])
    ensures Normalized(Joined(parts)) == Joined(parts)
  {
    JoinedChars(parts);
    SegmentsOfJoined(parts);
    FoldedPlain(parts, true);
    RelativeNormalized(Joined(parts), parts, "");
    assert Joined(parts) + "" == Joined(parts);
  }

  lemma {:induction false} PlainStaysSlashed(parts: seq<string>)
    requires parts != [] && forall k | 0 <= k < |parts| :: IsPlain(parts[k])
    ensures Normalized(Joined(parts) + "/") == Joined(parts) + "/"
  {
    JoinedChars(parts);
    JoinedSlash(parts);
    SegmentsOfJoined(parts + [""]);
    FoldedPlain(parts, true);
    RelativeNormalized(Joined(parts) + "/", parts, "/");
  }

  lemma {:induction false} DotStays()
    ensures Normalized("./") == "./"
  {
    SegmentsOfFirst(".", "");
    SegmentsOfLast("");
    assert "." + "/" + "" == "./";
    var segments := [".", ""];
    assert segments[..1] == ["."] && segments[..1][..0] == [];
    assert Folded(segments, true) == [];
  }

  /** A path that was accepted is accepted again as it is. */
  lemma {:induction false} SafeTwice(value: string)
    requires SafePortableRelative(value).Ok?
    ensures SafePortableRelative(SafePortableRelative(value).value) == SafePortableRelative(value)
  {
    var path := SafePortableRelative(value).value;
    var parts := SafeParts(value);
    JoinedChars(parts);
    if path == "./" {
      DotStays();
    } else if path == Joined(parts) {
      PlainStays(parts);
    } else {
      PlainStaysSlashed(parts);
    }
    SlashedClean(path);
  }

  /** No part of an accepted path leads up, and the path is not absolute. */
  lemma {:induction false} SafeStaysInside(value: string)
    requires SafePortableRelative(value).Ok?
    ensures ".." !in Segments(SafePortableRelative(value).value)
    ensures SafePortableRelative(value).value != "" && SafePortableRelative(value).value[0] != '/'
  {
    var path := SafePortableRelative(value).value;
    var parts := SafeParts(value);
    JoinedChars(parts);
    assert Joined(parts) + "" == Joined(parts);
    if path == "./" {
      SegmentsOfFirst(".", "");
      SegmentsOfLast("");
      assert "." + "/" + "" == "./";
    } else if path == Joined(parts) {
      SegmentsOfJoined(parts);
    } else {
      JoinedSlash(parts);
      SegmentsOfJoined(parts + [""]);
    }
  }
}
