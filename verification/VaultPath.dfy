/** The mount and secret path check (`validate_vault_path`) and what it rules out. */
module VaultPath {
  import opened Common
  import opened PathEncoding

  const DOT: byte := 0x2E

  /** The UTF-8 bytes of a control character (`char::is_control`) start at `i`. */
  predicate ControlAt(s: Bytes, i: int)
    requires 0 <= i < |s|
  {
    s[i] <= 0x1F || s[i] == 0x7F
    || (s[i] == 0xC2 && i + 1 < |s| && 0x80 <= s[i + 1] <= 0x9F)
  }

  /** The escapes `%2e`, `%2E`, `%2f` and `%2F`. */
  predicate HiddenDelimiterAt(s: Bytes, i: int) {
    0 <= i && i + 2 < |s| && s[i] == PERCENT && s[i + 1] == 0x32
    && (s[i + 2] == 0x65 || s[i + 2] == 0x45 || s[i + 2] == 0x66 || s[i + 2] == 0x46)
  }

  predicate DotDotAt(s: Bytes, i: int) {
    0 <= i && i + 1 < |s| && s[i] == DOT && s[i + 1] == DOT
  }

  predicate Accepted(s: Bytes) {
    && s != []
    && !(exists i :: 0 <= i < |s| && DotDotAt(s, i))
    && s[0] != SLASH
    && s[|s| - 1] != SLASH
    && !(exists i :: 0 <= i < |s| && HiddenDelimiterAt(s, i))
    && !(exists i :: 0 <= i < |s| && ControlAt(s, i))
  }

  /** Some byte of a control character: below the space, or one that ends `U+007F` to `U+009F`. */
  predicate HasControl(s: Bytes) {
    || (exists i :: 0 <= i < |s| && s[i] < 0x20)
    || (exists i :: 0 <= i < |s| && s[i] == 0x7F)
    || (exists i :: 1 <= i < |s| && s[i - 1] == 0xC2 && 0x80 <= s[i] < 0xA0)
  }

  /** No escape of a delimiter anywhere: the part of `Accepted` that decoding depends on. */
  ghost predicate NoHiddenDelimiter(s: Bytes) {
    forall i :: !HiddenDelimiterAt(s, i)
  }

  lemma NoHiddenInSuffix(s: Bytes, k: nat)
    requires NoHiddenDelimiter(s) && k <= |s|
    ensures NoHiddenDelimiter(s[k..])
  {
    forall i ensures !HiddenDelimiterAt(s[k..], i) {
      assert HiddenDelimiterAt(s[k..], i) ==> HiddenDelimiterAt(s, i + k);
    }
  }

  lemma DecodedTripletIsNoDelimiter(s: Bytes)
    requires NoHiddenDelimiter(s) && StartsWithTriplet(s)
    ensures TripletValue(s) != SLASH && TripletValue(s) != DOT
  {
    assert !HiddenDelimiterAt(s, 0);
  }

  function Count(s: Bytes, b: byte): nat {
    if s == [] then 0 else (if s[0] == b then 1 else 0) + Count(s[1..], b)
  }

  /** Decoding neither creates nor destroys a separator. */
  lemma {:induction false} DecodeKeepsSlashes(s: Bytes)
    requires NoHiddenDelimiter(s)
    ensures Count(Decode(s), SLASH) == Count(s, SLASH)
  {
    if s == [] {
    } else if StartsWithTriplet(s) {
      DecodedTripletIsNoDelimiter(s);
      NoHiddenInSuffix(s, 3);
      DecodeKeepsSlashes(s[3..]);
      assert Decode(s)[1..] == Decode(s[3..]);
      assert s[1..][1..] == s[2..] && s[2..][1..] == s[3..];
      assert Count(s[1..], SLASH) == Count(s[2..], SLASH) == Count(s[3..], SLASH);
    } else {
      NoHiddenInSuffix(s, 1);
      DecodeKeepsSlashes(s[1..]);
      assert Decode(s)[1..] == Decode(s[1..]);
    }
  }

  /** A delimiter at either end of the decoded text was there before. */
  lemma {:induction false} DecodeKeepsEnds(s: Bytes)
    requires NoHiddenDelimiter(s)
    ensures Decode(s) != [] <==> s != []
    ensures s != [] && Decode(s)[0] in {SLASH, DOT} ==> s[0] == Decode(s)[0]
    ensures s != [] && Decode(s)[|Decode(s)| - 1] in {SLASH, DOT}
            ==> s[|s| - 1] == Decode(s)[|Decode(s)| - 1]
  {
    if s == [] {
    } else if StartsWithTriplet(s) {
      DecodedTripletIsNoDelimiter(s);
      NoHiddenInSuffix(s, 3);
      DecodeKeepsEnds(s[3..]);
    } else {
      NoHiddenInSuffix(s, 1);
      DecodeKeepsEnds(s[1..]);
    }
  }

  /** A `..` in the decoded text was there before. */
  lemma {:induction false} DecodeAddsNoDotDot(s: Bytes, i: int)
    requires NoHiddenDelimiter(s) && DotDotAt(Decode(s), i)
    ensures exists j :: DotDotAt(s, j)
  {
    var step := if StartsWithTriplet(s) then 3 else 1;
    NoHiddenInSuffix(s, step);
    if i > 0 {
      DecodeAddsNoDotDot(s[step..], i - 1);
      var j :| DotDotAt(s[step..], j);
      assert DotDotAt(s, j + step);
    } else {
      DecodeKeepsEnds(s);
      DecodeKeepsEnds(s[step..]);
      assert DotDotAt(s, 0);
    }
  }

  /** One round of decoding leaves an accepted path inside its mount. */
  lemma AcceptedSurvivesDecoding(s: Bytes)
    requires Accepted(s)
    ensures Decode(s) != [] && Decode(s)[0] != SLASH && Decode(s)[|Decode(s)| - 1] != SLASH
    ensures Count(Decode(s), SLASH) == Count(s, SLASH)
    ensures forall i :: !DotDotAt(Decode(s), i)
    ensures Decode(Encode(s)) == s
  {
    DecodeKeepsSlashes(s);
    DecodeKeepsEnds(s);
    DecodeUndoesEncode(s);
    forall i ensures !DotDotAt(Decode(s), i) {
      if DotDotAt(Decode(s), i) {
        DecodeAddsNoDotDot(s, i);
      }
    }
  }

  // --- What is accepted ---

  /** A segment that the check lets pass: no `..` in it. */
  predicate HasDots(seg: Bytes) {
    exists i :: 0 <= i < |seg| - 1 && seg[i] == 0x2E && seg[i + 1] == 0x2E
  }

  lemma {:induction false} DotsInSegments(s: Bytes)
    ensures HasDots(s) <==> exists k :: 0 <= k < |Segments(s)| && HasDots(Segments(s)[k])
  {
    if |s| >= 2 {
      var rest := s[1..];
      var segs, all := Segments(rest), Segments(s);
      DotsInSegments(rest);
      DotsInTail(s);
      if s[0] == SLASH {
        assert !HasDots(all[0]);
        assert forall k :: 1 <= k < |all| ==> all[k] == segs[k - 1];
        if HasDots(rest) {
          var k :| 0 <= k < |segs| && HasDots(segs[k]);
          assert all[k + 1] == segs[k];
        }
      } else {
        assert forall k :: 1 <= k < |all| ==> all[k] == segs[k];
        FirstBytes(rest);
        DotsInTail(all[0]);
        assert all[0][1..] == segs[0];
      }
    }
  }

  lemma DotsInTail(s: Bytes)
    requires s != []
    ensures HasDots(s) <==> (|s| >= 2 && s[0] == 0x2E && s[1] == 0x2E) || HasDots(s[1..])
  {
    if HasDots(s) {
      var i :| 0 <= i < |s| - 1 && s[i] == 0x2E && s[i + 1] == 0x2E;
      if i > 0 {
        assert s[1..][i - 1] == 0x2E && s[1..][i] == 0x2E;
      }
    }
    if HasDots(s[1..]) {
      var i :| 0 <= i < |s[1..]| - 1 && s[1..][i] == 0x2E && s[1..][i + 1] == 0x2E;
      assert s[i + 1] == 0x2E && s[i + 2] == 0x2E;
    }
  }

  lemma FirstBytes(s: Bytes)
    ensures s == [] || s[0] == SLASH <==> Segments(s)[0] == []
    ensures Segments(s)[0] != [] ==> Segments(s)[0][0] == s[0]
  {
  }

  lemma {:induction false} LastSegment(s: Bytes)
    ensures var segs := Segments(s); s == [] || s[|s| - 1] == SLASH <==> segs[|segs| - 1] == []
  {
    if s != [] {
      LastSegment(s[1..]);
    }
  }

  /**
   * What is accepted: a first and a last segment that are not empty, no segment with `..` in
   * it, no escape of a dot or slash, and no control character.
   */
  lemma AcceptedExactly(s: Bytes)
    ensures Accepted(s) <==>
              var segs := Segments(s);
              && segs[0] != [] && segs[|segs| - 1] != []
              && (forall k :: 0 <= k < |segs| ==> !HasDots(segs[k]))
              && NoHiddenDelimiter(s) && !HasControl(s)
  {
    FirstBytes(s);
    LastSegment(s);
    DotsInSegments(s);
    DotsAndControls(s);
  }

  lemma DotsAndControls(s: Bytes)
    ensures (exists i :: 0 <= i < |s| && DotDotAt(s, i)) <==> HasDots(s)
    ensures (exists i :: 0 <= i < |s| && ControlAt(s, i)) <==> HasControl(s)
    ensures (exists i :: 0 <= i < |s| && HiddenDelimiterAt(s, i)) <==> !NoHiddenDelimiter(s)
  {
    if HasDots(s) {
      var i :| 0 <= i < |s| - 1 && s[i] == 0x2E && s[i + 1] == 0x2E;
      assert DotDotAt(s, i);
    }
    if HasControl(s) {
      if i :| 1 <= i < |s| && s[i - 1] == 0xC2 && 0x80 <= s[i] < 0xA0 {
        assert ControlAt(s, i - 1);
      } else {
        var i :| 0 <= i < |s| && (s[i] < 0x20 || s[i] == 0x7F);
        assert ControlAt(s, i);
      }
    }
    if i :| 0 <= i < |s| && ControlAt(s, i) {
      if s[i] == 0xC2 {
        assert s[i + 1 - 1] == 0xC2;
      }
    }
  }

  // --- More rounds ---

  /** The dots and slashes of a text. */
  function Delimiters(s: Bytes): nat {
    Count(s, SLASH) + Count(s, DOT)
  }

  lemma HiddenDelimiterIsTriplet(s: Bytes)
    requires StartsWithTriplet(s)
    ensures TripletValue(s) in {SLASH, DOT} <==> HiddenDelimiterAt(s, 0)
    ensures !HiddenDelimiterAt(s, 1) && !HiddenDelimiterAt(s, 2)
    ensures Delimiters(s) == Delimiters(s[3..])
  {
    assert s[1..][1..] == s[2..] && s[2..][1..] == s[3..];
    forall b | b in {SLASH, DOT}
      ensures Count(s, b) == Count(s[3..], b)
    {
      assert Count(s, b) == Count(s[1..], b) == Count(s[2..], b) == Count(s[3..], b);
    }
  }

  /** Nothing is hidden in a text if nothing is in its first `k` places or behind them. */
  lemma NoHiddenFrom(s: Bytes, k: nat)
    requires k <= |s| && forall i :: 0 <= i < k ==> !HiddenDelimiterAt(s, i)
    ensures NoHiddenDelimiter(s) <==> NoHiddenDelimiter(s[k..])
  {
    if NoHiddenDelimiter(s) {
      NoHiddenInSuffix(s, k);
    } else {
      var i :| HiddenDelimiterAt(s, i);
      assert HiddenDelimiterAt(s[k..], i - k);
    }
  }

  /** Decoding never loses a dot or a slash, and adds none exactly if the text hides none. */
  lemma {:induction false} DelimitersExactly(s: Bytes)
    ensures Delimiters(Decode(s)) >= Delimiters(s)
    ensures Delimiters(Decode(s)) == Delimiters(s) <==> NoHiddenDelimiter(s)
  {
    if s == [] {
    } else if StartsWithTriplet(s) {
      var rest := Decode(s[3..]);
      DelimitersExactly(s[3..]);
      HiddenDelimiterIsTriplet(s);
      assert Decode(s)[1..] == rest;
      if !HiddenDelimiterAt(s, 0) {
        NoHiddenFrom(s, 3);
      }
    } else {
      DelimitersExactly(s[1..]);
      assert Decode(s)[1..] == Decode(s[1..]);
      NoHiddenFrom(s, 1);
    }
  }

  /**
   * For an accepted path, a second round of decoding leaves the dots and slashes as they are
   * exactly if the first round uncovers no escape of one. Then it stays inside its mount.
   */
  lemma TwoRoundsExactly(s: Bytes)
    requires Accepted(s)
    ensures Delimiters(Decode(Decode(s))) == Delimiters(s) <==> NoHiddenDelimiter(Decode(s))
    ensures NoHiddenDelimiter(Decode(s)) ==>
              var twice := Decode(Decode(s));
              && twice != [] && twice[0] != SLASH && twice[|twice| - 1] != SLASH
              && Count(twice, SLASH) == Count(s, SLASH)
              && forall i :: !DotDotAt(twice, i)
  {
    DelimitersExactly(s);
    DelimitersExactly(Decode(s));
    AcceptedSurvivesDecoding(s);
    if NoHiddenDelimiter(Decode(s)) {
      DecodeKeepsSlashes(Decode(s));
      DecodeKeepsEnds(Decode(s));
      forall i ensures !DotDotAt(Decode(Decode(s)), i) {
        if DotDotAt(Decode(Decode(s)), i) {
          DecodeAddsNoDotDot(Decode(s), i);
        }
      }
    }
  }

  /** `%2e`, once and twice encoded. */
  const DOT_ESCAPE: Bytes := [0x25, 0x32, 0x65]
  const DOT_ESCAPE_TWICE: Bytes := [0x25, 0x32, 0x35, 0x32, 0x65]

  /** Two rounds may not: `%252e%252e` is accepted and ends up as `..`. */
  lemma TwoRoundsMayEscape()
    ensures Accepted(DOT_ESCAPE_TWICE + DOT_ESCAPE_TWICE)
    ensures DotDotAt(Decode(Decode(DOT_ESCAPE_TWICE + DOT_ESCAPE_TWICE)), 0)
  {
    var once := DOT_ESCAPE + DOT_ESCAPE;
    EncodedDot();
    EncodeConcat(DOT_ESCAPE, DOT_ESCAPE);
    DecodeUndoesEncode(once);
    DecodedDots();
  }

  lemma DecodedDots()
    ensures Decode(DOT_ESCAPE + DOT_ESCAPE) == [DOT, DOT]
  {
  }

  lemma EncodedDot()
    ensures Encode(DOT_ESCAPE) == DOT_ESCAPE_TWICE
  {
  }
}
