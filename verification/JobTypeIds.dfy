/** The two independent validators of job type identifiers, and the grammar both must accept. */
module JobTypeIds {

  newtype Byte = b: int | 0 <= b < 256

  const DOT: Byte := 46
  const UNDERSCORE: Byte := 95

  predicate IsLetter(c: Byte) { 65 <= c <= 90 || 97 <= c <= 122 }

  predicate IsDigit(c: Byte) { 48 <= c <= 57 }

  predicate IsWordByte(c: Byte) { IsLetter(c) || IsDigit(c) || c == UNDERSCORE }

  /** A segment of the documented grammar: a letter followed by letters, digits or underscores. */
  predicate IsSegment(s: seq<Byte>) {
    s != [] && IsLetter(s[0]) && AllWord(s[1..])
  }

  function Join(segments: seq<seq<Byte>>): seq<Byte>
    requires segments != []
  {
    if |segments| == 1 then segments[0] else segments[0] + [DOT] + Join(segments[1..])
  }

  predicate AllWord(p: seq<Byte>) { forall i :: 0 <= i < |p| ==> IsWordByte(p[i]) }

  predicate AllSegments(parts: seq<seq<Byte>>) { forall i :: 0 <= i < |parts| ==> IsSegment(parts[i]) }

  /** The documented grammar: one or more segments separated by single dots. */
  ghost predicate IsJobTypeId(s: seq<Byte>) {
    exists segments: seq<seq<Byte>> ::
      segments != [] && s == Join(segments) && AllSegments(segments)
  }

  /** The parts of a string between its dots. */
  function Split(s: seq<Byte>): (parts: seq<seq<Byte>>)
    ensures parts != []
  {
    if s == [] then [[]]
    else
      var rest := Split(s[1..]);
      if s[0] == DOT then [[]] + rest else [[s[0]] + rest[0]] + rest[1..]
  }

  lemma {:induction false} JoinSplit(s: seq<Byte>)
    ensures Join(Split(s)) == s
  {
    if s != [] {
      JoinSplit(s[1..]);
      var rest := Split(s[1..]);
      if s[0] == DOT {
        assert ([[]] + rest)[1..] == rest;
      } else {
        assert ([[s[0]] + rest[0]] + rest[1..])[1..] == rest[1..];
      }
    }
  }

  lemma {:induction false} SplitOfPlainPrefix(p: seq<Byte>, s: seq<Byte>)
    requires DOT !in p
    ensures Split(p + s) == [p + Split(s)[0]] + Split(s)[1..]
  {
    if p == [] {
      assert p + s == s;
      assert p + Split(s)[0] == Split(s)[0];
    } else {
      SplitOfPlainPrefix(p[1..], s);
      assert (p + s)[1..] == p[1..] + s;
      assert [p[0]] + (p[1..] + Split(s)[0]) == p + Split(s)[0];
    }
  }

  lemma {:induction false} SplitJoin(segments: seq<seq<Byte>>)
    requires segments != []
    requires forall i :: 0 <= i < |segments| ==> DOT !in segments[i]
    ensures Split(Join(segments)) == segments
  {
    var first := segments[0];
    if |segments| == 1 {
      SplitOfPlainPrefix(first, []);
      assert first + [] == first;
    } else {
      var tail := [DOT] + Join(segments[1..]);
      SplitJoin(segments[1..]);
      SplitOfPlainPrefix(first, tail);
      assert tail[1..] == Join(segments[1..]);
      assert Split(tail) == [[]] + segments[1..];
      assert Join(segments) == first + tail;
      assert first + [] == first;
    }
  }

  lemma SegmentHasNoDot(segment: seq<Byte>)
    requires IsSegment(segment)
    ensures DOT !in segment
  {
    assert segment == [segment[0]] + segment[1..];
  }

  /** Splitting decides the grammar: the only candidate decomposition is the split one. */
  lemma GrammarBySplit(s: seq<Byte>)
    ensures IsJobTypeId(s) <==> AllSegments(Split(s))
  {
    JoinSplit(s);
    if IsJobTypeId(s) {
      var segments :| segments != [] && s == Join(segments) && AllSegments(segments);
      forall i | 0 <= i < |segments| ensures DOT !in segments[i] {
        SegmentHasNoDot(segments[i]);
      }
      SplitJoin(segments);
    }
  }

  lemma AllSegmentsHead(parts: seq<seq<Byte>>)
    requires parts != []
    ensures AllSegments(parts) <==> IsSegment(parts[0]) && AllSegments(parts[1..])
  {
    assert parts == [parts[0]] + parts[1..];
  }

  lemma AllWordHead(p: seq<Byte>)
    requires p != []
    ensures AllWord(p) <==> IsWordByte(p[0]) && AllWord(p[1..])
  {
    assert p == [p[0]] + p[1..];
  }

  /**
    The grammar, byte by byte: the first byte and every one after a dot is an ASCII letter, the others are
    ASCII letters, digits, underscores or dots, and the last one is not a dot.
   */
  predicate IsLocallyValid(s: seq<Byte>) {
    && s != [] && s[|s| - 1] != 46
    && forall i :: 0 <= i < |s| ==>
         || 65 <= s[i] <= 90 || 97 <= s[i] <= 122
         || (i > 0 && s[i - 1] != 46 && (48 <= s[i] <= 57 || s[i] == 95 || s[i] == 46))
  }

  /** What may come at a place, `first` saying whether it is the beginning of a segment. */
  predicate MayCome(c: Byte, first: bool) {
    65 <= c <= 90 || 97 <= c <= 122 || (!first && (48 <= c <= 57 || c == 95 || c == 46))
  }

  predicate IsFirst(s: seq<Byte>, i: nat, start: bool)
    requires i < |s|
  {
    if i == 0 then start else s[i - 1] == 46
  }

  /** What is left after a prefix, `start` saying whether the prefix is empty or ends with a dot. */
  predicate RestIsValid(s: seq<Byte>, start: bool) {
    && (s == [] ==> !start) && (s != [] ==> s[|s| - 1] != 46)
    && forall i {:trigger IsFirst(s, i, start)} :: 0 <= i < |s| ==> MayCome(s[i], IsFirst(s, i, start))
  }

  lemma RestOfFirst(s: seq<Byte>, start: bool)
    requires s != []
    ensures RestIsValid(s, start) <==> MayCome(s[0], start) && RestIsValid(s[1..], s[0] == 46)
  {
    var rest := s[1..];
    assert IsFirst(s, 0, start) == start;
    forall i | 0 <= i < |rest| ensures rest[i] == s[i + 1] && IsFirst(rest, i, s[0] == 46) == IsFirst(s, i + 1, start) {
    }
    if MayCome(s[0], start) && RestIsValid(rest, s[0] == 46) {
      forall i | 0 <= i < |s| ensures MayCome(s[i], IsFirst(s, i, start)) {
        if i > 0 {
          assert MayCome(rest[i - 1], IsFirst(rest, i - 1, s[0] == 46));
        }
      }
    }
  }

  lemma {:induction false} AcceptsLocally(s: seq<Byte>, start: bool)
    ensures Accepts(s, start) <==> RestIsValid(s, start)
  {
    if s != [] {
      AcceptsLocally(s[1..], s[0] == 46);
      RestOfFirst(s, start);
    }
  }

  lemma LocallyIsRest(s: seq<Byte>)
    ensures IsLocallyValid(s) <==> RestIsValid(s, true)
  {
    if RestIsValid(s, true) {
      forall i | 0 <= i < |s|
        ensures || 65 <= s[i] <= 90 || 97 <= s[i] <= 122
                || (i > 0 && s[i - 1] != 46 && (48 <= s[i] <= 57 || s[i] == 95 || s[i] == 46))
      {
        assert MayCome(s[i], IsFirst(s, i, true));
      }
    }
  }

  /** The grammar by segments is the same as the one byte by byte. */
  lemma GrammarByBytes(s: seq<Byte>)
    ensures IsJobTypeId(s) <==> IsLocallyValid(s)
  {
    GrammarBySplit(s);
    AcceptsBySplit(s, true);
    AllSegmentsHead(Split(s));
    AcceptsLocally(s, true);
    LocallyIsRest(s);
  }

  /** What the single-pass automaton still accepts, `start` being its segment-start flag. */
  predicate Accepts(s: seq<Byte>, start: bool) {
    if s == [] then !start
    else if s[0] == DOT then !start && Accepts(s[1..], true)
    else if start then IsLetter(s[0]) && Accepts(s[1..], false)
    else IsWordByte(s[0]) && Accepts(s[1..], false)
  }

  lemma {:induction false} AcceptsBySplit(s: seq<Byte>, start: bool)
    ensures Accepts(s, start) <==>
            && (if start then IsSegment(Split(s)[0]) else AllWord(Split(s)[0]))
            && AllSegments(Split(s)[1..])
  {
    if s != [] {
      var rest := Split(s[1..]);
      var parts := Split(s);
      if s[0] == DOT {
        AcceptsBySplit(s[1..], true);
        assert parts[1..] == rest;
        AllSegmentsHead(rest);
      } else {
        AcceptsBySplit(s[1..], false);
        assert parts[1..] == rest[1..];
        assert parts[0][1..] == rest[0];
        AllWordHead(parts[0]);
      }
    }
  }

  /** The client's validator: one pass over the bytes with a segment-start flag. */
  method ValidateClient(bytes: seq<Byte>) returns (valid: bool)
    ensures valid <==> IsJobTypeId(bytes)
  {
    GrammarBySplit(bytes);
    AcceptsBySplit(bytes, true);
    AllSegmentsHead(Split(bytes));
    if |bytes| == 0 {
      return false;
    }
    var i := 0;
    var segmentStart := true;
    while i < |bytes|
      invariant 0 <= i <= |bytes|
      invariant Accepts(bytes, true) == Accepts(bytes[i..], segmentStart)
    {
      var c := bytes[i];
      assert bytes[i..][0] == c && bytes[i..][1..] == bytes[i + 1..];
      if c == DOT {
        if segmentStart {
          return false;
        }
        segmentStart := true;
      } else if segmentStart {
        if !(65 <= c <= 90 || 97 <= c <= 122) {
          return false;
        }
        segmentStart := false;
      } else if !(IsLetter(c) || IsDigit(c) || c == UNDERSCORE) {
        return false;
      }
      i := i + 1;
    }
    if segmentStart {
      return false;
    }
    return true;
  }

  /** The server's validator: split at the dots and check every part. */
  method ValidateServer(s: seq<Byte>) returns (valid: bool)
    ensures valid <==> IsJobTypeId(s)
  {
    GrammarBySplit(s);
    if |s| == 0 {
      return false;
    }
    var segments := Split(s);
    for n := 0 to |segments|
      invariant AllSegments(segments[..n])
    {
      var ok := ValidateSegment(segments[n]);
      if !ok {
        return false;
      }
      assert segments[..n + 1] == segments[..n] + [segments[n]];
    }
    assert segments[..|segments|] == segments;
    return true;
  }

  method ValidateSegment(segment: seq<Byte>) returns (valid: bool)
    ensures valid <==> IsSegment(segment)
  {
    if segment == [] {
      return false;
    }
    if !IsLetter(segment[0]) {
      return false;
    }
    for k := 1 to |segment|
      invariant forall i :: 1 <= i < k ==> IsWordByte(segment[i])
    {
      if !IsWordByte(segment[k]) {
        assert segment[1..][k - 1] == segment[k];
        return false;
      }
    }
    return true;
  }
}
