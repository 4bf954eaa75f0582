/** The one-pass scanner for dotted names, proved against the grammar

      name    = segment ("." segment)+
      segment = [a-z] [a-z0-9_]*                                                   */
module Names {
  import opened Types

  const MAX_NAME_LEN := 128

  datatype ParseError =
    | Empty
    | TooLong(got: nat)
    | BadCharacter(at: nat, found: char)
    | EmptySegment(at: nat)
    | BadSegmentStart(at: nat)
    | NoDot

  predicate IsLower(c: char) {
    'a' <= c <= 'z'
  }

  predicate IsSegmentBody(c: char) {
    IsLower(c) || '0' <= c <= '9' || c == '_'
  }

  // ---- The grammar -----------------------------------------------------------------

  predicate Segment(s: string) {
    |s| > 0 && 'a' <= s[0] <= 'z'
    && forall i :: 1 <= i < |s| ==> 'a' <= s[i] <= 'z' || '0' <= s[i] <= '9' || s[i] == '_'
  }

  /** `s` derives from `name`: a segment, a dot, and then a segment or another name. */
  ghost predicate Dotted(s: string) {
    exists i :: 0 <= i < |s| && FirstSegmentEnds(s, i) && (Segment(s[i + 1..]) || Dotted(s[i + 1..]))
  }

  predicate FirstSegmentEnds(s: string, i: nat)
    requires i < |s|
  {
    s[i] == '.' && Segment(s[..i])
  }

  /** Some continuation of `p` is a name (of any length). */
  ghost predicate Viable(p: string) {
    exists t :: Dotted(p + t)
  }

  ghost predicate ValidName(s: string) {
    1 <= |s| <= 128 && Dotted(s)
  }

  // ---- The grammar, byte by byte -------------------------------------------------------

  /** Byte `i` may follow byte `i - 1`. */
  predicate FitsAt(s: string, i: nat)
    requires i < |s|
  {
    var atStart := i == 0 || s[i - 1] == '.';
    if s[i] == '.' then !atStart else if atStart then IsLower(s[i]) else IsSegmentBody(s[i])
  }

  predicate Fits(s: string) {
    forall i :: 0 <= i < |s| ==> FitsAt(s, i)
  }

  predicate Closed(s: string) {
    |s| > 0 && s[|s| - 1] != '.' && '.' in s && Fits(s)
  }

  lemma {:induction false} SegmentFits(s: string)
    ensures Segment(s) <==> |s| > 0 && Fits(s) && '.' !in s
  {
    if Segment(s) {
      forall i | 0 <= i < |s| ensures FitsAt(s, i) && s[i] != '.' {
        if i > 0 { assert s[i - 1] != '.'; }
      }
    }
    if |s| > 0 && Fits(s) && '.' !in s {
      assert FitsAt(s, 0);
      forall i | 1 <= i < |s| ensures IsSegmentBody(s[i]) {
        assert FitsAt(s, i);
        assert s[i - 1] in s;
      }
    }
  }

  /** Splitting at a dot splits the byte-by-byte condition. */
  lemma FitsSplit(s: string, i: nat)
    requires i < |s| && s[i] == '.'
    ensures Fits(s) <==> i > 0 && s[i - 1] != '.' && Fits(s[..i]) && Fits(s[i + 1..])
  {
    var a, b := s[..i], s[i + 1..];
    assert FitsAt(s, i) <==> i > 0 && s[i - 1] != '.';
    forall j | 0 <= j < i ensures FitsAt(a, j) <==> FitsAt(s, j) {
    }
    forall j | 0 <= j < |b| ensures FitsAt(b, j) <==> FitsAt(s, i + 1 + j) {
    }
    if i > 0 && s[i - 1] != '.' && Fits(a) && Fits(b) {
      forall j | 0 <= j < |s| ensures FitsAt(s, j) {
        if j < i {
          assert FitsAt(a, j);
        } else if j > i {
          assert FitsAt(b, j - i - 1);
        }
      }
    }
    if Fits(s) {
      forall j | 0 <= j < i ensures FitsAt(a, j) { assert FitsAt(s, j); }
      forall j | 0 <= j < |b| ensures FitsAt(b, j) { assert FitsAt(s, i + 1 + j); }
      assert FitsAt(s, i);
    }
  }

  lemma {:induction false} DottedIsClosed(s: string)
    ensures Dotted(s) <==> Closed(s)
    decreases |s|
  {
    if Dotted(s) {
      var i :| 0 <= i < |s| && FirstSegmentEnds(s, i) && (Segment(s[i + 1..]) || Dotted(s[i + 1..]));
      SegmentFits(s[..i]);
      SegmentFits(s[i + 1..]);
      DottedIsClosed(s[i + 1..]);
      assert s[i - 1] == s[..i][i - 1] && s[i - 1] in s[..i];
      FitsSplit(s, i);
      assert s[|s| - 1] == s[i + 1..][|s| - i - 2];
      var b := s[i + 1..];
      assert b[|b| - 1] in b;
    }
    if Closed(s) {
      var i := FirstDot(s);
      FitsSplit(s, i);
      SegmentFits(s[..i]);
      assert FirstSegmentEnds(s, i);
      var b := s[i + 1..];
      assert |b| > 0 && b[|b| - 1] == s[|s| - 1];
      SegmentFits(b);
      DottedIsClosed(b);
    }
  }

  lemma FirstDot(s: string) returns (i: nat)
    requires '.' in s
    ensures i < |s| && s[i] == '.' && '.' !in s[..i]
  {
    i := 0;
    while s[i] != '.'
      invariant 0 <= i < |s| && '.' !in s[..i]
      invariant exists j :: i <= j < |s| && s[j] == '.'
      decreases |s| - i
    {
      assert s[..i + 1] == s[..i] + [s[i]];
      i := i + 1;
    }
  }

  /** A string can be continued to a name exactly when each byte fits its predecessor. */
  lemma ViableIsFits(p: string)
    ensures Viable(p) <==> Fits(p)
  {
    if Viable(p) {
      var t :| Dotted(p + t);
      DottedIsClosed(p + t);
      forall i | 0 <= i < |p| ensures FitsAt(p, i) {
        assert FitsAt(p + t, i);
      }
    }
    if Fits(p) {
      var t := if p == [] || p[|p| - 1] == '.' then "a.a" else ".a";
      var w := p + t;
      forall i | 0 <= i < |w| ensures FitsAt(w, i) {
        if i < |p| { assert FitsAt(p, i); }
      }
      assert w[|w| - 2] == '.';
      DottedIsClosed(w);
    }
  }

  // ---- The scanner ---------------------------------------------------------------------

  /** Accepts exactly the names of 1 to 128 bytes. A positional error raised while scanning
      points at the first byte after which no continuation is a name; the two errors raised
      at the end of the input describe an input that is only unfinished. */
  method ParseDottedName(s: string) returns (r: Result<string, ParseError>)
    ensures r.Ok? <==> ValidName(s)
    ensures r.Ok? ==> r.value == s
    ensures r == Err(Empty) <==> s == ""
    ensures (r.Err? && r.error.TooLong?) <==> |s| > 128
    ensures r.Err? && r.error.TooLong? ==> r.error.got == |s|
    ensures r.Err? && r.error.BadCharacter? ==>
              r.error.at < |s| && r.error.found == s[r.error.at] && !IsSegmentBody(r.error.found)
              && r.error.found != '.' && Viable(s[..r.error.at]) && !Viable(s[..r.error.at + 1])
    ensures r.Err? && r.error.BadSegmentStart? ==>
              r.error.at < |s| && IsSegmentBody(s[r.error.at]) && !IsLower(s[r.error.at])
              && Viable(s[..r.error.at]) && !Viable(s[..r.error.at + 1])
    ensures r.Err? && r.error.EmptySegment? ==>
              r.error.at < |s| && s[r.error.at] == '.' && Viable(s[..r.error.at])
              && (Viable(s[..r.error.at + 1]) ==> r.error.at == |s| - 1)
    ensures r == Err(NoDot) <==> |s| <= 128 && Segment(s)
  {
    if |s| == 0 {
      return Err(Empty);
    }
    if |s| > MAX_NAME_LEN {
      SegmentFits(s);
      return Err(TooLong(|s|));
    }
    var sawDot := false;
    var segmentStart := 0;
    for i := 0 to |s|
      invariant 0 <= segmentStart <= i
      invariant sawDot <==> '.' in s[..i]
      invariant segmentStart > 0 ==> s[segmentStart - 1] == '.'
      invariant forall j :: segmentStart <= j < i ==> s[j] != '.'
      invariant forall j :: 0 <= j < i ==> FitsAt(s, j)
    {
      var b := s[i];
      assert s[..i + 1] == s[..i] + [b];
      assert (i == 0 || s[i - 1] == '.') <==> i == segmentStart;
      if b == '.' {
        sawDot := true;
        if i == segmentStart {
          StuckAt(s, i);
          return Err(EmptySegment(i));
        }
        segmentStart := i + 1;
        continue;
      }
      if i == segmentStart {
        if !IsLower(b) {
          StuckAt(s, i);
          if IsSegmentBody(b) {
            return Err(BadSegmentStart(i));
          }
          return Err(BadCharacter(i, b));
        }
      } else if !IsSegmentBody(b) {
        StuckAt(s, i);
        return Err(BadCharacter(i, b));
      }
    }
    assert s[..|s|] == s;
    DottedIsClosed(s);
    SegmentFits(s);
    if segmentStart == |s| {
      var front := s[..|s| - 1];
      forall j | 0 <= j < |front| ensures FitsAt(front, j) {
        assert FitsAt(s, j);
      }
      ViableIsFits(front);
      return Err(EmptySegment(|s| - 1));
    }
    if !sawDot {
      return Err(NoDot);
    }
    return Ok(s);
  }

  /** When byte `i` is the first that does not fit, the bytes before it can still be
      continued to a name and the bytes through it cannot. */
  lemma StuckAt(s: string, i: nat)
    requires i < |s| && !FitsAt(s, i) && forall j :: 0 <= j < i ==> FitsAt(s, j)
    ensures Viable(s[..i]) && !Viable(s[..i + 1]) && !Dotted(s) && !Segment(s)
  {
    forall j | 0 <= j < i ensures FitsAt(s[..i], j) {
      assert FitsAt(s, j);
    }
    assert !FitsAt(s[..i + 1], i);
    ViableIsFits(s[..i]);
    ViableIsFits(s[..i + 1]);
    DottedIsClosed(s);
    SegmentFits(s);
  }

  // ---- Signal names ----------------------------------------------------------------------

  /** Appending ".signal" to a kind keeps it a legal name exactly up to 121 bytes. The
      program builds the signal name without re-parsing it. */
  lemma SignalNameIsValid(kind: string)
    requires ValidName(kind)
    ensures ValidName(SignalNameFor(kind)) <==> |kind| <= 121
  {
    var s := SignalNameFor(kind);
    DottedIsClosed(kind);
    forall i | 0 <= i < |s| ensures FitsAt(s, i) {
      if i < |kind| { assert FitsAt(kind, i); }
    }
    assert s[|kind|] == '.';
    DottedIsClosed(s);
  }

  /** Distinct kinds have distinct signal names. */
  lemma SignalNameInjective(a: string, b: string)
    requires SignalNameFor(a) == SignalNameFor(b)
    ensures a == b
  {
    assert |a| == |b|;
    assert a == SignalNameFor(a)[..|a|] == SignalNameFor(b)[..|b|] == b;
  }
}
