/** `getBullets` of js/detalle.js:10-18: the product description as a list
    of bullet points, or null when there is nothing to list. */
module Bullets {
  import opened Options
  import opened Text
  import opened JsValue
  import opened Products
  import Seqs

  /** The characters of the split pattern `/[\r\n;]+/`. */
  predicate IsSeparator(c: char) {
    c == '\r' || c == '\n' || c == ';'
  }

  predicate NotSeparator(c: char) {
    !IsSeparator(c)
  }

  predicate NoSeparator(s: string) {
    forall i :: 0 <= i < |s| ==> !IsSeparator(s[i])
  }

  /** `s.split(/[\r\n;]+/)`: the pieces between maximal separator runs
      (an empty piece before a leading run and after a trailing run). */
  function SplitRuns(s: string): (r: seq<string>)
    decreases |s|
    ensures |r| >= 1
    ensures forall i :: 0 <= i < |r| ==> NoSeparator(r[i])
  {
    var i := IndexWhere(s, IsSeparator);
    if i == |s| then [s]
    else
      var j := i + IndexWhere(s[i..], NotSeparator);
      assert j > i;
      [s[..i]] + SplitRuns(s[j..])
  }

  predicate NonEmpty(t: string) {
    t != ""
  }

  /** `.map(t => t.trim())`. */
  function TrimAll(pieces: seq<string>): (r: seq<string>)
    ensures |r| == |pieces|
    ensures forall i :: 0 <= i < |r| ==> r[i] == Trim(pieces[i])
  {
    seq(|pieces|, i requires 0 <= i < |pieces| => Trim(pieces[i]))
  }

  /** `.map(t => String(t))`. */
  function Stringify(items: seq<Prim>): (r: seq<string>)
    ensures |r| == |items|
    ensures forall i :: 0 <= i < |r| ==> r[i] == ToString(items[i])
  {
    seq(|items|, i requires 0 <= i < |items| => ToString(items[i]))
  }

  /** `.map(t => t.trim()).filter(Boolean)`. */
  function TrimAndDropEmpty(pieces: seq<string>): seq<string> {
    Seqs.Filter(TrimAll(pieces), NonEmpty)
  }

  /** `getBullets(p)` for the product's description. */
  function GetBullets(d: Description): (r: Option<seq<string>>)
    ensures r.Some? ==> forall i :: 0 <= i < |r.value| ==> r.value[i] != "" && Trim(r.value[i]) == r.value[i]
    ensures d.Entries? ==> r.Some?
    ensures d.Single? ==> (r.Some? <==> d.value.Str? && Trim(d.value.s) != "")
  {
    match d
    case Entries(items) =>
      TrimmedPieces(Stringify(items));
      Some(TrimAndDropEmpty(Stringify(items)))
    case Single(v) =>
      if v.Str? && Trim(v.s) != "" then
        TrimmedPieces(SplitRuns(v.s));
        Some(TrimAndDropEmpty(SplitRuns(v.s)))
      else None
  }

  lemma TrimmedPieces(pieces: seq<string>)
    ensures forall i :: 0 <= i < |TrimAndDropEmpty(pieces)| ==>
      TrimAndDropEmpty(pieces)[i] != "" && Trim(TrimAndDropEmpty(pieces)[i]) == TrimAndDropEmpty(pieces)[i]
  {
    var trimmed := TrimAll(pieces);
    var r := TrimAndDropEmpty(pieces);
    forall i | 0 <= i < |r|
      ensures r[i] != "" && Trim(r[i]) == r[i]
    {
      Seqs.FilterMembership(trimmed, NonEmpty, r[i]);
      var k :| 0 <= k < |trimmed| && trimmed[k] == r[i];
      TrimIdempotent(pieces[k]);
    }
  }

  /** Trimming separator-free pieces and dropping the empty ones leaves
      separator-free bullets. */
  lemma CleanPiecesHaveNoSeparator(pieces: seq<string>)
    requires forall k :: 0 <= k < |pieces| ==> NoSeparator(pieces[k])
    ensures forall i :: 0 <= i < |TrimAndDropEmpty(pieces)| ==> NoSeparator(TrimAndDropEmpty(pieces)[i])
  {
    var trimmed := TrimAll(pieces);
    var r := TrimAndDropEmpty(pieces);
    forall i | 0 <= i < |r|
      ensures NoSeparator(r[i])
    {
      Seqs.FilterMembership(trimmed, NonEmpty, r[i]);
      var k :| 0 <= k < |trimmed| && trimmed[k] == r[i];
      TrimKeepsNoSeparator(pieces[k]);
    }
  }

  lemma TrimKeepsNoSeparator(s: string)
    requires NoSeparator(s)
    ensures NoSeparator(Trim(s))
  {
    TrimIsInfix(s);
    var i, j :| 0 <= i <= j <= |s| && Trim(s) == s[i..j];
    assert forall m :: 0 <= m < j - i ==> s[i..j][m] == s[i + m];
  }

  /** A description string yields bullets free of separators: each one is
      a trimmed piece between separator runs. */
  lemma StringBulletsHaveNoSeparator(s: string)
    requires Trim(s) != ""
    ensures forall i :: 0 <= i < |GetBullets(Single(Str(s))).value| ==> NoSeparator(GetBullets(Single(Str(s))).value[i])
  {
    CleanPiecesHaveNoSeparator(SplitRuns(s));
  }

  /** An array description becomes its entries' trimmed strings, in order,
      with exactly the empty ones dropped: every non-empty trimmed string
      is kept as often as it occurs. */
  lemma ArrayBullets(items: seq<Prim>, t: string)
    ensures Seqs.IsSubsequence(GetBullets(Entries(items)).value, TrimAll(Stringify(items)))
    ensures multiset(GetBullets(Entries(items)).value)[t] == if t == "" then 0 else multiset(TrimAll(Stringify(items)))[t]
    ensures t in GetBullets(Entries(items)).value <==> t != "" && exists i :: 0 <= i < |items| && Trim(ToString(items[i])) == t
  {
    var trimmed := TrimAll(Stringify(items));
    Seqs.FilterIsSubsequence(trimmed, NonEmpty);
    Seqs.FilterCounts(trimmed, NonEmpty, t);
    Seqs.FilterMembership(trimmed, NonEmpty, t);
    assert t in trimmed <==> exists i :: 0 <= i < |items| && Trim(ToString(items[i])) == t by {
      if t in trimmed {
        var i :| 0 <= i < |trimmed| && trimmed[i] == t;
        assert Trim(ToString(items[i])) == t;
      }
      if exists i :: 0 <= i < |items| && Trim(ToString(items[i])) == t {
        var i :| 0 <= i < |items| && Trim(ToString(items[i])) == t;
        assert trimmed[i] == t;
      }
    }
  }

  // ---------------------------------------------------------------- pieces and runs

  /** A non-empty run of separator characters. */
  predicate IsRun(sep: string) {
    |sep| > 0 && forall i :: 0 <= i < |sep| ==> IsSeparator(sep[i])
  }

  /** Pieces with separator runs between them: `bs[0] + runs[0] + bs[1] + ...`. */
  function Interleave(bs: seq<string>, runs: seq<string>): string
    requires |bs| >= 1 && |runs| == |bs| - 1
  {
    if |bs| == 1 then bs[0] else bs[0] + runs[0] + Interleave(bs[1..], runs[1..])
  }

  /** The shape a split by maximal separator runs has: separator-free
      pieces, one run between neighbours, and every piece but the first
      and the last non-empty, so that no two runs touch. */
  predicate WellSplit(bs: seq<string>, runs: seq<string>) {
    && |bs| >= 1 && |runs| == |bs| - 1
    && (forall i :: 0 <= i < |bs| ==> NoSeparator(bs[i]))
    && (forall i :: 0 < i < |bs| - 1 ==> bs[i] != "")
    && (forall i :: 0 <= i < |runs| ==> IsRun(runs[i]))
  }

  /** The maximal separator runs of `s`, in order. */
  function SeparatorRuns(s: string): (runs: seq<string>)
    decreases |s|
    ensures forall i :: 0 <= i < |runs| ==> IsRun(runs[i])
  {
    var i := IndexWhere(s, IsSeparator);
    if i == |s| then []
    else
      var j := i + IndexWhere(s[i..], NotSeparator);
      assert j > i;
      assert forall m :: i <= m < j ==> s[m] == s[i..][m - i];
      [s[i..j]] + SeparatorRuns(s[j..])
  }

  /** Text that starts with a non-separator has a non-empty first piece. */
  lemma FirstPieceNonEmpty(t: string)
    requires |t| > 0 && !IsSeparator(t[0])
    ensures SplitRuns(t)[0] != ""
  {
  }

  /** One split step: the text before the first run is the first piece,
      and the rest is split on. */
  lemma {:induction false} SplitStep(s: string)
    requires IndexWhere(s, IsSeparator) < |s|
    ensures var i := IndexWhere(s, IsSeparator);
      SplitRuns(s) == [s[..i]] + SplitRuns(s[i + IndexWhere(s[i..], NotSeparator)..])
  {
  }

  /** The first run found is the first of the runs, and the rest is
      searched on. */
  lemma {:induction false} RunsStep(s: string)
    requires IndexWhere(s, IsSeparator) < |s|
    ensures var i := IndexWhere(s, IsSeparator);
      var j := i + IndexWhere(s[i..], NotSeparator);
      SeparatorRuns(s) == [s[i..j]] + SeparatorRuns(s[j..])
  {
  }

  /** The first run is non-empty. */
  lemma {:induction false} RunNonEmpty(s: string)
    requires IndexWhere(s, IsSeparator) < |s|
    ensures var i := IndexWhere(s, IsSeparator);
      IndexWhere(s[i..], NotSeparator) > 0
  {
    var i := IndexWhere(s, IsSeparator);
    assert s[i..][0] == s[i];
  }

  /** The text before the first run has no separator, and the run has
      nothing else. */
  lemma {:induction false} FirstRunClean(s: string)
    requires IndexWhere(s, IsSeparator) < |s|
    ensures var i := IndexWhere(s, IsSeparator);
      NoSeparator(s[..i]) && IsRun(s[i..i + IndexWhere(s[i..], NotSeparator)])
  {
    var i := IndexWhere(s, IsSeparator);
    var t := s[i..];
    var k := IndexWhere(t, NotSeparator);
    var run := s[i..i + k];
    RunNonEmpty(s);
    forall m | 0 <= m < k
      ensures IsSeparator(run[m])
    {
      assert !NotSeparator(t[m]);
      assert run[m] == t[m];
    }
  }

  /** The first run is maximal: what follows it is not a separator. */
  lemma {:induction false} RunMaximal(s: string)
    requires IndexWhere(s, IsSeparator) < |s|
    ensures var i := IndexWhere(s, IsSeparator);
      var j := i + IndexWhere(s[i..], NotSeparator);
      j == |s| || !IsSeparator(s[j])
  {
    var i := IndexWhere(s, IsSeparator);
    var t := s[i..];
    var k := IndexWhere(t, NotSeparator);
    if i + k < |s| {
      assert NotSeparator(t[k]);
      assert t[k] == s[i + k];
    }
  }

  /** Prepending a piece and a run keeps the split shape and the rebuilt text. */
  lemma WellSplitCons(b: string, run: string, bs: seq<string>, runs: seq<string>)
    requires NoSeparator(b) && IsRun(run) && WellSplit(bs, runs)
    requires |bs| == 1 || bs[0] != ""
    ensures WellSplit([b] + bs, [run] + runs)
    ensures Interleave([b] + bs, [run] + runs) == b + run + Interleave(bs, runs)
  {
    assert ([b] + bs)[1..] == bs;
    assert ([run] + runs)[1..] == runs;
  }

  /** The pieces and the runs between them rebuild the string exactly, so
      nothing is lost or reordered, and the pieces lie between maximal runs. */
  lemma {:induction false} SplitRunsDecomposes(s: string)
    decreases |s|
    ensures WellSplit(SplitRuns(s), SeparatorRuns(s))
    ensures Interleave(SplitRuns(s), SeparatorRuns(s)) == s
  {
    var i := IndexWhere(s, IsSeparator);
    if i < |s| {
      SplitStep(s);
      RunsStep(s);
      RunMaximal(s);
      FirstRunClean(s);
      var j := i + IndexWhere(s[i..], NotSeparator);
      Seqs.ThreeSlices(s, i, j);
      var rest := s[j..];
      SplitRunsDecomposes(rest);
      SplitSingle("");
      if |rest| > 0 {
        FirstPieceNonEmpty(rest);
      }
      WellSplitCons(s[..i], s[i..j], SplitRuns(rest), SeparatorRuns(rest));
    }
  }

  /** Pieces of that shape, written back with any separator runs between
      them, split into themselves. */
  lemma {:induction false} SplitInterleave(bs: seq<string>, runs: seq<string>)
    requires WellSplit(bs, runs)
    ensures SplitRuns(Interleave(bs, runs)) == bs
  {
    if |bs| == 1 {
      SplitSingle(bs[0]);
    } else {
      var tail := Interleave(bs[1..], runs[1..]);
      assert WellSplit(bs[1..], runs[1..]);
      if |bs| > 2 {
        assert bs[1] != "";
        assert tail == bs[1] + runs[1] + Interleave(bs[2..], runs[2..]);
        assert tail[0] == bs[1][0];
      }
      SplitRunCons(bs[0], runs[0], tail);
      SplitInterleave(bs[1..], runs[1..]);
      assert bs == [bs[0]] + bs[1..];
    }
  }

  // ---------------------------------------------------------------- round trip

  /** A bullet as `getBullets` produces it. */
  predicate IsBullet(b: string) {
    b != "" && Trim(b) == b && NoSeparator(b)
  }

  /** The bullets written back as one description string. */
  function Join(bs: seq<string>): string
    requires |bs| >= 1
  {
    if |bs| == 1 then bs[0] else bs[0] + ";" + Join(bs[1..])
  }

  lemma {:induction false} IndexWhereAfter(a: string, x: string, p: char -> bool)
    requires forall i :: 0 <= i < |a| ==> !p(a[i])
    ensures IndexWhere(a + x, p) == |a| + IndexWhere(x, p)
  {
    if |a| > 0 {
      assert (a + x)[1..] == a[1..] + x;
      IndexWhereAfter(a[1..], x, p);
    } else {
      assert a + x == x;
    }
  }

  /** A piece without separators splits into itself. */
  lemma SplitSingle(b: string)
    requires NoSeparator(b)
    ensures SplitRuns(b) == [b]
  {
    IndexWhereAfter(b, "", IsSeparator);
    assert b + "" == b;
  }

  /** A separator-free piece, a separator run, and text that is empty or
      does not start with a separator split after the piece. */
  lemma SplitRunCons(b: string, run: string, tail: string)
    requires NoSeparator(b) && IsRun(run) && (|tail| == 0 || !IsSeparator(tail[0]))
    ensures SplitRuns(b + run + tail) == [b] + SplitRuns(tail)
  {
    var s := b + run + tail;
    assert s == b + (run + tail);
    IndexWhereAfter(b, run + tail, IsSeparator);
    var i := IndexWhere(s, IsSeparator);
    assert i == |b|;
    assert s[..i] == b;
    assert s[i..] == run + tail;
    IndexWhereAfter(run, tail, NotSeparator);
    assert IndexWhere(s[i..], NotSeparator) == |run|;
    assert s[i + |run|..] == tail;
  }

  /** A bullet, one `;` and text not starting with a separator split at that `;`. */
  lemma SplitCons(b: string, tail: string)
    requires NoSeparator(b) && |tail| > 0 && !IsSeparator(tail[0])
    ensures SplitRuns(b + ";" + tail) == [b] + SplitRuns(tail)
  {
    assert IsRun(";");
    SplitRunCons(b, ";", tail);
  }

  /** Splitting the joined bullets gives the bullets back. */
  lemma {:induction false} SplitJoin(bs: seq<string>)
    requires |bs| >= 1 && forall i :: 0 <= i < |bs| ==> bs[i] != "" && NoSeparator(bs[i])
    ensures SplitRuns(Join(bs)) == bs
  {
    if |bs| == 1 {
      SplitSingle(bs[0]);
    } else {
      JoinStartsWithFirst(bs[1..]);
      SplitCons(bs[0], Join(bs[1..]));
      SplitJoin(bs[1..]);
      assert bs == [bs[0]] + bs[1..];
    }
  }

  lemma JoinStartsWithFirst(bs: seq<string>)
    requires |bs| >= 1 && bs[0] != ""
    ensures |Join(bs)| > 0 && Join(bs)[0] == bs[0][0]
  {
  }

  /** Writing non-empty bullets back as one `;`-separated string and
      reading it again returns them unchanged. */
  lemma StringBulletsRoundTrip(bs: seq<string>)
    requires |bs| >= 1 && forall i :: 0 <= i < |bs| ==> IsBullet(bs[i])
    ensures GetBullets(Single(Str(Join(bs)))) == Some(bs)
  {
    JoinStartsWithFirst(bs);
    assert !IsJsWhitespace(bs[0][0]) by {
      assert Trim(bs[0]) == bs[0];
    }
    TrimKeepsLeadingText(Join(bs));
    SplitJoin(bs);
    AlreadyClean(bs);
  }

  /** Writing bullets back as an array of strings and reading it again
      returns them unchanged. */
  lemma ArrayBulletsRoundTrip(bs: seq<string>)
    requires forall i :: 0 <= i < |bs| ==> IsBullet(bs[i])
    ensures GetBullets(Entries(seq(|bs|, i requires 0 <= i < |bs| => Str(bs[i])))) == Some(bs)
  {
    var items := seq(|bs|, i requires 0 <= i < |bs| => Str(bs[i]));
    assert Stringify(items) == bs;
    AlreadyClean(bs);
  }

  lemma AlreadyClean(bs: seq<string>)
    requires forall i :: 0 <= i < |bs| ==> IsBullet(bs[i])
    ensures TrimAndDropEmpty(bs) == bs
  {
    assert TrimAll(bs) == bs;
    Seqs.FilterAcceptAll(bs, NonEmpty);
  }
}
