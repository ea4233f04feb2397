/** `Pattern::strip_prefix_len` and `Pattern::strip_suffix_len`
    (turbopack-core/src/resolve/pattern.rs): removing a number of characters
    from the start or the end of every alternative of a pattern. */
module PatternStrip {
  import opened Wrappers
  import opened Patterns

  function Min(a: nat, b: nat): nat {
    if a <= b then a else b
  }

  /** No dynamic placeholder among the first `k` tokens. */
  predicate CharsBefore(ts: seq<Token>, k: nat)
    requires k <= |ts|
  {
    forall i | 0 <= i < k :: ts[i].Char?
  }

  /** No dynamic placeholder among the last `k` tokens. */
  predicate CharsAfter(ts: seq<Token>, k: nat)
    requires k <= |ts|
  {
    forall i | |ts| - k <= i < |ts| :: ts[i].Char?
  }

  // ---------------------------------------------------------------------
  // strip_prefix_len
  // ---------------------------------------------------------------------

  /** `strip_prefix_internal`: strips up to `n` characters from the front of
      `p`, returning the new pattern and how many characters are still to be
      stripped. */
  function StripPrefixPart(p: Pattern, n: nat): Result<(Pattern, nat)>
    decreases p, 1
  {
    match p
    case Constant(c) =>
      if n >= |c| then Ok((Constant(""), n - |c|)) else Ok((Constant(c[n..]), 0))
    case Concatenation(list) =>
      var stripped :- StripPrefixList(list, n);
      Ok((Concatenation(stripped.0), stripped.1))
    case Alternatives(_) => Err("strip_prefix pattern must be normalized")
    case _ => Err("strip_prefix prefix is too long")
  }

  /** The loop over a concatenation's parts: a part is visited only while
      characters remain to be stripped. */
  function StripPrefixList(list: seq<Pattern>, n: nat): Result<(seq<Pattern>, nat)>
    decreases list, 0
  {
    if |list| == 0 || n == 0 then Ok((list, n))
    else
      var head :- StripPrefixPart(list[0], n);
      var tail :- StripPrefixList(list[1..], head.1);
      Ok(([head.0] + tail.0, tail.1))
  }

  /** `strip_prefix_len` as written: every alternative is stripped even when
      `n` is 0, so a bare dynamic alternative fails. */
  function StripPrefixLenAsWritten(p: Pattern, n: nat): Result<Pattern>
  {
    match p
    case Alternatives(list) =>
      var stripped :- StripPrefixEach(list, n, false);
      Ok(Normalize(Alternatives(stripped)))
    case Dynamic => if n > 0 then Err("strip_prefix prefix is too long") else Ok(Normalize(p))
    case DynamicNoSlash => if n > 0 then Err("strip_prefix prefix is too long") else Ok(Normalize(p))
    case _ =>
      var stripped :- StripPrefixPart(p, n);
      Ok(Normalize(stripped.0))
  }

  /** `strip_prefix_len` with the alternatives treated like a top-level
      pattern: stripping nothing succeeds on a bare dynamic alternative. */
  function StripPrefixLen(p: Pattern, n: nat): Result<Pattern>
  {
    match p
    case Alternatives(list) =>
      var stripped :- StripPrefixEach(list, n, true);
      Ok(Normalize(Alternatives(stripped)))
    case Dynamic => if n > 0 then Err("strip_prefix prefix is too long") else Ok(Normalize(p))
    case DynamicNoSlash => if n > 0 then Err("strip_prefix prefix is too long") else Ok(Normalize(p))
    case _ =>
      var stripped :- StripPrefixPart(p, n);
      Ok(Normalize(stripped.0))
  }

  /** Strips `n` characters from every alternative, each starting afresh;
      `skipEmpty` leaves the alternatives alone when `n` is 0. */
  function StripPrefixEach(list: seq<Pattern>, n: nat, skipEmpty: bool): Result<seq<Pattern>>
  {
    if |list| == 0 then Ok([])
    else
      var head :- if skipEmpty && n == 0 then Ok((list[0], 0)) else StripPrefixPart(list[0], n);
      var tail :- StripPrefixEach(list[1..], n, skipEmpty);
      Ok([head.0] + tail)
  }

  /** Stripping a prefix from one part succeeds iff no dynamic placeholder
      lies among the characters to strip; the result means the remaining
      tokens, and the count left over is what the part could not supply. */
  lemma {:induction false} StripPrefixPartTokens(p: Pattern, n: nat)
    requires AltFree(p) && n > 0
    ensures var ts := Tokens(p); var k := Min(n, |ts|);
      && (StripPrefixPart(p, n).Ok? <==> CharsBefore(ts, k))
      && (StripPrefixPart(p, n).Ok? ==>
            var r := StripPrefixPart(p, n).value;
            AltFree(r.0) && Tokens(r.0) == ts[k..] && r.1 == n - k)
    decreases p, 1
  {
    match p
    case Constant(c) =>
    case Concatenation(list) => StripPrefixListTokens(list, n);
    case Dynamic => assert Tokens(p)[0] == Any;
    case DynamicNoSlash => assert Tokens(p)[0] == AnyNoSlash;
  }

  lemma {:induction false} StripPrefixListTokens(list: seq<Pattern>, n: nat)
    requires AltFreeList(list)
    ensures var ts := TokensList(list); var k := Min(n, |ts|);
      && (StripPrefixList(list, n).Ok? <==> CharsBefore(ts, k))
      && (StripPrefixList(list, n).Ok? ==>
            var r := StripPrefixList(list, n).value;
            AltFreeList(r.0) && TokensList(r.0) == ts[k..] && r.1 == n - k)
    decreases list, 0
  {
    if |list| == 0 || n == 0 {
    } else {
      var t0 := Tokens(list[0]);
      var rest := TokensList(list[1..]);
      assert TokensList(list) == t0 + rest;
      StripPrefixPartTokens(list[0], n);
      if StripPrefixPart(list[0], n).Ok? {
        var head := StripPrefixPart(list[0], n).value;
        StripPrefixListTokens(list[1..], head.1);
        if n < |t0| {
          PrefixWithinHead(t0, rest, n);
          TokensListCons(head.0, list[1..]);
        } else {
          PrefixPastHead(t0, rest, n);
          if StripPrefixList(list[1..], head.1).Ok? {
            TokensListCons(head.0, StripPrefixList(list[1..], head.1).value.0);
          }
        }
      } else {
        PrefixBlockedInHead(t0, rest, n);
      }
    }
  }

  /** Stripping fewer characters than the first part holds touches only
      that part. */
  lemma PrefixWithinHead(t0: seq<Token>, rest: seq<Token>, n: nat)
    requires n < |t0|
    ensures Min(n, |t0 + rest|) == n && Min(n, |t0|) == n
    ensures CharsBefore(t0 + rest, n) <==> CharsBefore(t0, n)
    ensures (t0 + rest)[n..] == t0[n..] + rest
  {
    assert forall i | 0 <= i < n :: (t0 + rest)[i] == t0[i];
  }

  /** Stripping at least the whole first part leaves the rest to the
      following parts. */
  lemma PrefixPastHead(t0: seq<Token>, rest: seq<Token>, n: nat)
    requires n >= |t0|
    ensures var k1 := Min(n - |t0|, |rest|);
      && Min(n, |t0|) == |t0|
      && Min(n, |t0 + rest|) == |t0| + k1
      && (CharsBefore(t0 + rest, |t0| + k1) <==> CharsBefore(t0, |t0|) && CharsBefore(rest, k1))
      && (t0 + rest)[|t0| + k1..] == rest[k1..]
  {
    var k1 := Min(n - |t0|, |rest|);
    assert forall i | 0 <= i < |t0| :: (t0 + rest)[i] == t0[i];
    assert forall j | 0 <= j < k1 :: (t0 + rest)[|t0| + j] == rest[j];
  }

  /** A placeholder among the first part's characters to strip blocks the
      whole concatenation. */
  lemma PrefixBlockedInHead(t0: seq<Token>, rest: seq<Token>, n: nat)
    requires !CharsBefore(t0, Min(n, |t0|))
    ensures !CharsBefore(t0 + rest, Min(n, |t0 + rest|))
  {
    var j :| 0 <= j < Min(n, |t0|) && !t0[j].Char?;
    assert (t0 + rest)[j] == t0[j];
  }

  /** For a pattern without alternatives, `strip_prefix_len` succeeds iff no
      dynamic placeholder lies within the first `n` characters, and the
      result means the tokens after them, normalised. */
  lemma StripPrefixLenTokens(p: Pattern, n: nat)
    requires AltFree(p)
    ensures var ts := Tokens(p); var k := Min(n, |ts|);
      && (StripPrefixLen(p, n).Ok? <==> CharsBefore(ts, k))
      && (StripPrefixLen(p, n).Ok? ==>
            AltFree(StripPrefixLen(p, n).value) &&
            Tokens(StripPrefixLen(p, n).value) == AbsorbTokens([], ts[k..]))
  {
    var ts := Tokens(p);
    assert ts[0..] == ts;
    if p.Dynamic? || p.DynamicNoSlash? {
      if n == 0 {
        NormalizeAltFreeTokens(p);
      } else {
        assert !ts[0].Char?;
      }
    } else if n == 0 {
      var stripped := StripPrefixPart(p, 0);
      if p.Constant? {
        NormalizeAltFreeTokens(p);
      } else {
        assert StripPrefixList(p.list, 0) == Ok((p.list, 0));
        NormalizeAltFreeTokens(p);
      }
    } else {
      StripPrefixPartTokens(p, n);
      if StripPrefixPart(p, n).Ok? {
        NormalizeAltFreeTokens(StripPrefixPart(p, n).value.0);
      }
    }
  }

  /** Every alternative is stripped on its own: the result is `Ok` iff each
      alternative can be stripped. */
  lemma {:induction false} StripPrefixEachOk(list: seq<Pattern>, n: nat, skipEmpty: bool)
    ensures StripPrefixEach(list, n, skipEmpty).Ok? <==>
      forall i | 0 <= i < |list| :: (skipEmpty && n == 0) || StripPrefixPart(list[i], n).Ok?
    ensures StripPrefixEach(list, n, skipEmpty).Ok? ==> |StripPrefixEach(list, n, skipEmpty).value| == |list|
  {
    if |list| > 0 {
      StripPrefixEachOk(list[1..], n, skipEmpty);
      if !(forall i | 0 <= i < |list| :: (skipEmpty && n == 0) || StripPrefixPart(list[i], n).Ok?) {
        var i :| 0 <= i < |list| && !((skipEmpty && n == 0) || StripPrefixPart(list[i], n).Ok?);
        if i > 0 {
          assert list[1..][i - 1] == list[i];
        }
      } else {
        forall i | 0 <= i < |list| - 1
          ensures (skipEmpty && n == 0) || StripPrefixPart(list[1..][i], n).Ok?
        {
          assert list[1..][i] == list[i + 1];
        }
      }
    }
  }

  /** Stripping nothing leaves every alternative untouched. */
  lemma StripPrefixEachZero(list: seq<Pattern>)
    ensures StripPrefixEach(list, 0, true) == Ok(list)
  {
    if |list| > 0 {
      StripPrefixEachZero(list[1..]);
      assert [list[0]] + list[1..] == list;
    }
  }

  /** Finding: as written, stripping nothing fails on an alternatives pattern
      with a bare dynamic alternative, although it succeeds on a bare
      dynamic pattern. */
  lemma StripPrefixZeroAsWritten()
    ensures StripPrefixLenAsWritten(Alternatives([Dynamic, Constant("a")]), 0).Err?
    ensures StripPrefixLenAsWritten(Dynamic, 0) == Ok(Dynamic)
  {
  }

  /** The corrected rule: stripping nothing never fails and only normalises. */
  lemma {:induction false} StripPrefixZero(p: Pattern)
    ensures StripPrefixLen(p, 0) == Ok(Normalize(p))
  {
    match p
    case Alternatives(list) => StripPrefixEachZero(list);
    case Constant(c) =>
    case Concatenation(list) => assert StripPrefixList(list, 0) == Ok((list, 0));
    case Dynamic =>
    case DynamicNoSlash =>
  }

  // ---------------------------------------------------------------------
  // strip_suffix_len
  // ---------------------------------------------------------------------

  /** `strip_suffix_internal`: strips up to `n` characters from the end of
      `p`. `None` stands for the cases where the source panics. */
  function StripSuffixPart(p: Pattern, n: nat): Option<(Pattern, nat)>
    decreases p, 1
  {
    match p
    case Constant(c) =>
      if n >= |c| then Some((Constant(""), n - |c|)) else Some((Constant(c[..|c| - n]), 0))
    case Concatenation(list) =>
      (match StripSuffixList(list, n)
       case None => None
       case Some(stripped) => Some((Concatenation(stripped.0), stripped.1)))
    case _ => None
  }

  /** The loop over a concatenation's parts, last part first. */
  function StripSuffixList(list: seq<Pattern>, n: nat): Option<(seq<Pattern>, nat)>
    decreases list, 0
  {
    if |list| == 0 || n == 0 then Some((list, n))
    else
      match StripSuffixPart(list[|list| - 1], n)
      case None => None
      case Some(last) =>
        match StripSuffixList(list[..|list| - 1], last.1)
        case None => None
        case Some(init) => Some((init.0 + [last.0], init.1))
  }

  /** Every alternative stripped from its end, each starting from the full
      count. */
  function StripSuffixEach(list: seq<Pattern>, n: nat): Option<seq<Pattern>>
  {
    if |list| == 0 then Some([])
    else if n == 0 then Some(list)
    else
      match StripSuffixPart(list[0], n)
      case None => None
      case Some(head) =>
        match StripSuffixEach(list[1..], n)
        case None => None
        case Some(tail) => Some([head.0] + tail)
  }

  /** Every alternative is stripped on its own: the result is `Some` iff
      nothing is stripped or each alternative can be stripped, and it keeps
      their number. */
  lemma {:induction false} StripSuffixEachSome(list: seq<Pattern>, n: nat)
    ensures StripSuffixEach(list, n).Some? <==>
      n == 0 || forall i | 0 <= i < |list| :: StripSuffixPart(list[i], n).Some?
    ensures StripSuffixEach(list, n).Some? ==> |StripSuffixEach(list, n).value| == |list|
  {
    if |list| > 0 && n > 0 {
      StripSuffixEachSome(list[1..], n);
      if !(forall i | 0 <= i < |list| :: StripSuffixPart(list[i], n).Some?) {
        var i :| 0 <= i < |list| && StripSuffixPart(list[i], n).None?;
        if i > 0 {
          assert list[1..][i - 1] == list[i];
        }
      } else {
        forall i | 0 <= i < |list| - 1
          ensures StripSuffixPart(list[1..][i], n).Some?
        {
          assert list[1..][i] == list[i + 1];
        }
      }
    }
  }

  /** What `strip_suffix_len` demands: no alternative may need a dynamic
      part or a nested alternative stripped. */
  predicate CanStripSuffix(p: Pattern, n: nat) {
    match p
    case Alternatives(list) => StripSuffixEach(list, n).Some?
    case Dynamic => n == 0
    case DynamicNoSlash => n == 0
    case _ => StripSuffixPart(p, n).Some?
  }

  /** `strip_suffix_len`, with the alternatives treated like a top-level
      pattern so that stripping nothing never panics. */
  function StripSuffixLen(p: Pattern, n: nat): Pattern
    requires CanStripSuffix(p, n)
  {
    match p
    case Alternatives(list) => Normalize(Alternatives(StripSuffixEach(list, n).value))
    case Dynamic => Normalize(p)
    case DynamicNoSlash => Normalize(p)
    case _ => Normalize(StripSuffixPart(p, n).value.0)
  }

  lemma {:induction false} StripSuffixPartTokens(p: Pattern, n: nat)
    requires AltFree(p) && n > 0
    ensures var ts := Tokens(p); var k := Min(n, |ts|);
      && (StripSuffixPart(p, n).Some? <==> CharsAfter(ts, k))
      && (StripSuffixPart(p, n).Some? ==>
            var r := StripSuffixPart(p, n).value;
            AltFree(r.0) && Tokens(r.0) == ts[..|ts| - k] && r.1 == n - k)
    decreases p, 1
  {
    match p
    case Constant(c) =>
    case Concatenation(list) => StripSuffixListTokens(list, n);
    case Dynamic => assert Tokens(p)[0] == Any;
    case DynamicNoSlash => assert Tokens(p)[0] == AnyNoSlash;
  }

  lemma CharsAfterShort(front: seq<Token>, back: seq<Token>, k: nat)
    requires k <= |back|
    ensures CharsAfter(front + back, k) <==> CharsAfter(back, k)
    ensures (front + back)[..|front + back| - k] == front + back[..|back| - k]
  {
    var ts := front + back;
    if CharsAfter(back, k) {
      forall i | |ts| - k <= i < |ts| ensures ts[i].Char? {
        assert ts[i] == back[i - |front|];
      }
    }
    if CharsAfter(ts, k) {
      forall j | |back| - k <= j < |back| ensures back[j].Char? {
        assert ts[|front| + j] == back[j];
      }
    }
  }

  lemma CharsAfterLong(front: seq<Token>, back: seq<Token>, k: nat)
    requires k <= |front|
    ensures CharsAfter(front + back, |back| + k) <==> CharsAfter(back, |back|) && CharsAfter(front, k)
    ensures (front + back)[..|front + back| - (|back| + k)] == front[..|front| - k]
  {
    var ts := front + back;
    if CharsAfter(back, |back|) && CharsAfter(front, k) {
      forall i | |ts| - (|back| + k) <= i < |ts| ensures ts[i].Char? {
        if i < |front| {
          assert ts[i] == front[i];
        } else {
          assert ts[i] == back[i - |front|];
        }
      }
    }
    if CharsAfter(ts, |back| + k) {
      forall j | 0 <= j < |back| ensures back[j].Char? {
        assert ts[|front| + j] == back[j];
      }
      forall j | |front| - k <= j < |front| ensures front[j].Char? {
        assert ts[j] == front[j];
      }
    }
  }

  lemma {:induction false} StripSuffixListTokens(list: seq<Pattern>, n: nat)
    requires AltFreeList(list)
    ensures var ts := TokensList(list); var k := Min(n, |ts|);
      && (StripSuffixList(list, n).Some? <==> CharsAfter(ts, k))
      && (StripSuffixList(list, n).Some? ==>
            var r := StripSuffixList(list, n).value;
            AltFreeList(r.0) && TokensList(r.0) == ts[..|ts| - k] && r.1 == n - k)
    decreases list, 0
  {
    if |list| == 0 || n == 0 {
    } else {
      var m := |list| - 1;
      var init := list[..m];
      assert list == init + [list[m]];
      TokensListAppend(init, [list[m]]);
      var tl := Tokens(list[m]);
      var front := TokensList(init);
      assert TokensList([list[m]]) == tl;
      StripSuffixPartTokens(list[m], n);
      var kl := Min(n, |tl|);
      if StripSuffixPart(list[m], n).Some? {
        var last := StripSuffixPart(list[m], n).value;
        StripSuffixListTokens(init, last.1);
        if kl < |tl| {
          CharsAfterShort(front, tl, kl);
          var r := StripSuffixList(list, n).value;
          assert r.0 == init + [last.0];
          TokensListAppend(init, [last.0]);
          assert TokensList([last.0]) == Tokens(last.0);
        } else {
          var k1 := Min(last.1, |front|);
          CharsAfterLong(front, tl, k1);
          if StripSuffixList(init, last.1).Some? {
            var r := StripSuffixList(init, last.1).value;
            TokensListAppend(r.0, [last.0]);
            assert TokensList([last.0]) == Tokens(last.0);
          }
        }
      } else {
        CharsAfterShort(front, tl, kl);
      }
    }
  }

  /** For a pattern without alternatives, `strip_suffix_len` may be called
      iff no dynamic placeholder lies within the last `n` characters, and the
      result means the tokens before them, normalised. */
  lemma StripSuffixLenTokens(p: Pattern, n: nat)
    requires AltFree(p)
    ensures var ts := Tokens(p); var k := Min(n, |ts|);
      && (CanStripSuffix(p, n) <==> CharsAfter(ts, k))
      && (CanStripSuffix(p, n) ==>
            AltFree(StripSuffixLen(p, n)) &&
            Tokens(StripSuffixLen(p, n)) == AbsorbTokens([], ts[..|ts| - k]))
  {
    var ts := Tokens(p);
    assert ts[..|ts| - 0] == ts;
    if p.Dynamic? || p.DynamicNoSlash? {
      if n == 0 {
        NormalizeAltFreeTokens(p);
      } else {
        assert !ts[0].Char?;
      }
    } else if n == 0 {
      if p.Concatenation? {
        assert StripSuffixList(p.list, 0) == Some((p.list, 0));
      }
      NormalizeAltFreeTokens(p);
    } else {
      StripSuffixPartTokens(p, n);
      if StripSuffixPart(p, n).Some? {
        NormalizeAltFreeTokens(StripSuffixPart(p, n).value.0);
      }
    }
  }
}
