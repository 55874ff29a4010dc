/** `slugify` of js/detalle.js:27-29: lower-case, strip accents, replace
    each run of characters outside `[a-z0-9]` by one `-`, then drop a
    leading and a trailing `-`. */
module Slug {
  import opened Text
  import Seqs

  predicate IsSlugChar(c: char) {
    'a' <= c <= 'z' || '0' <= c <= '9'
  }

  /** A well-formed slug: letters, digits and single inner dashes. */
  predicate IsSlug(r: string) {
    && (forall i :: 0 <= i < |r| ==> IsSlugChar(r[i]) || r[i] == '-')
    && (forall i :: 0 <= i < |r| - 1 ==> !(r[i] == '-' && r[i + 1] == '-'))
    && (|r| > 0 ==> r[0] != '-' && r[|r| - 1] != '-')
  }

  /** The combining diacritical marks `[\u0300-\u036f]`. */
  predicate IsCombiningMark(c: char) {
    0x300 <= c as int <= 0x36F
  }

  /** The base letter of a Latin-1 letter whose canonical decomposition is
      a letter followed by a combining mark, in lower case; every other
      character is returned unchanged. */
  function BaseLetter(c: char): (r: char)
    ensures 'a' <= r <= 'z' || r == c
  {
    var n := c as int;
    if 0xC0 <= n <= 0xC5 || 0xE0 <= n <= 0xE5 then 'a'
    else if n == 0xC7 || n == 0xE7 then 'c'
    else if 0xC8 <= n <= 0xCB || 0xE8 <= n <= 0xEB then 'e'
    else if 0xCC <= n <= 0xCF || 0xEC <= n <= 0xEF then 'i'
    else if n == 0xD1 || n == 0xF1 then 'n'
    else if 0xD2 <= n <= 0xD6 || 0xF2 <= n <= 0xF6 then 'o'
    else if 0xD9 <= n <= 0xDC || 0xF9 <= n <= 0xFC then 'u'
    else if n == 0xDD || n == 0xFD || n == 0xFF then 'y'
    else c
  }

  /** Canonical decomposition followed by removal of the combining marks
      U+0300 to U+036F: accented letters lose their accent and combining
      marks disappear. */
  function RemoveAccents(s: string): (r: string)
    ensures |r| <= |s|
    ensures forall i :: 0 <= i < |r| ==> !IsCombiningMark(r[i])
  {
    if |s| == 0 then ""
    else if IsCombiningMark(s[0]) then RemoveAccents(s[1..])
    else [BaseLetter(s[0])] + RemoveAccents(s[1..])
  }

  /** The input with its leading run of non-slug characters removed. */
  function DropRun(s: string): (r: string)
    ensures |r| <= |s|
    ensures r == s[|s| - |r|..]
    ensures |r| > 0 ==> IsSlugChar(r[0])
  {
    if |s| > 0 && !IsSlugChar(s[0]) then DropRun(s[1..]) else s
  }

  /** `.replace(/[^a-z0-9]+/g, '-')`. */
  function Collapse(s: string): (r: string)
    decreases |s|
    ensures forall i :: 0 <= i < |r| ==> IsSlugChar(r[i]) || r[i] == '-'
    ensures forall i :: 0 <= i < |r| - 1 ==> !(r[i] == '-' && r[i + 1] == '-')
    ensures |s| > 0 && IsSlugChar(s[0]) ==> |r| > 0 && r[0] == s[0]
    ensures |r| == 0 <==> |s| == 0
  {
    if |s| == 0 then ""
    else if IsSlugChar(s[0]) then [s[0]] + Collapse(s[1..])
    else "-" + Collapse(DropRun(s[1..]))
  }

  /** `.replace(/(^-|-$)/g, '')`. */
  function StripDashes(s: string): string {
    var a := if |s| > 0 && s[0] == '-' then s[1..] else s;
    if |a| > 0 && a[|a| - 1] == '-' then a[..|a| - 1] else a
  }

  /** `slugify(s)` for a string `s`. */
  function Slugify(s: string): string {
    StripDashes(Collapse(RemoveAccents(ToLower(s))))
  }

  /** Slug characters and dashes, no two dashes in a row. */
  predicate DashSeparated(r: string) {
    && (forall i :: 0 <= i < |r| ==> IsSlugChar(r[i]) || r[i] == '-')
    && (forall i :: 0 <= i < |r| - 1 ==> !(r[i] == '-' && r[i + 1] == '-'))
  }

  lemma DashSeparatedSlice(r: string, lo: int, hi: int)
    requires DashSeparated(r) && 0 <= lo <= hi <= |r|
    ensures DashSeparated(r[lo..hi])
  {
    var t := r[lo..hi];
    assert forall i :: 0 <= i < |t| ==> t[i] == r[lo + i];
  }

  /** Stripping the end dashes of a dash-separated string leaves a slug. */
  lemma StripDashesGivesSlug(c: string)
    requires DashSeparated(c)
    ensures IsSlug(StripDashes(c))
  {
    var a := if |c| > 0 && c[0] == '-' then c[1..] else c;
    DashSeparatedSlice(c, if |c| > 0 && c[0] == '-' then 1 else 0, |c|);
    assert |a| > 0 ==> a[0] != '-' by {
      if |c| > 0 && c[0] == '-' && |a| > 0 {
        assert a[0] == c[1];
      }
    }
    var r := StripDashes(c);
    if |a| > 0 && a[|a| - 1] == '-' {
      assert r == a[..|a| - 1];
      DashSeparatedSlice(a, 0, |a| - 1);
      if |r| > 0 {
        assert r[|r| - 1] == a[|a| - 2];
      }
    } else {
      assert r == a;
    }
  }

  /** Every slug is made of `[a-z0-9-]`, with no dash at either end and
      no two dashes in a row. */
  lemma SlugifyIsSlug(s: string)
    ensures IsSlug(Slugify(s))
  {
    StripDashesGivesSlug(Collapse(RemoveAccents(ToLower(s))));
  }

  /** A string of slug characters and single dashes collapses to itself. */
  lemma {:induction false} CollapseFixpoint(r: string)
    requires forall i :: 0 <= i < |r| ==> IsSlugChar(r[i]) || r[i] == '-'
    requires forall i :: 0 <= i < |r| - 1 ==> !(r[i] == '-' && r[i + 1] == '-')
    ensures Collapse(r) == r
  {
    if |r| > 0 {
      CollapseFixpoint(r[1..]);
      if !IsSlugChar(r[0]) {
        assert DropRun(r[1..]) == r[1..];
      }
    }
  }

  /** Slugs are fixed points of `slugify`. */
  lemma SlugFixpoint(r: string)
    requires IsSlug(r)
    ensures Slugify(r) == r
  {
    LowerKeepsSlugText(r);
    PlainTextKeepsLetters(r);
    CollapseFixpoint(r);
    StripDashesKeepsSlug(r);
  }

  lemma StripDashesKeepsSlug(r: string)
    requires IsSlug(r)
    ensures StripDashes(r) == r
  {
  }

  lemma LowerKeepsSlugText(r: string)
    requires forall i :: 0 <= i < |r| ==> IsSlugChar(r[i]) || r[i] == '-'
    ensures ToLower(r) == r
  {
    assert forall i :: 0 <= i < |r| ==> ToLower(r)[i] == r[i];
  }

  /** Text without accented letters or combining marks is left unchanged. */
  lemma {:induction false} PlainTextKeepsLetters(r: string)
    requires forall i :: 0 <= i < |r| ==> IsSlugChar(r[i]) || r[i] == '-'
    ensures RemoveAccents(r) == r
  {
    if |r| > 0 {
      PlainTextKeepsLetters(r[1..]);
      assert r == [r[0]] + r[1..];
    }
  }

  /** The letter a character stands for once case and accent are gone. */
  function LetterKey(c: char): char {
    BaseLetter(ToLowerAscii(c))
  }

  lemma {:induction false} RemoveAccentsAgree(x: string, y: string)
    requires |x| == |y|
    requires forall i :: 0 <= i < |x| ==> !IsCombiningMark(x[i]) && !IsCombiningMark(y[i]) && BaseLetter(x[i]) == BaseLetter(y[i])
    ensures RemoveAccents(x) == RemoveAccents(y)
  {
    if |x| > 0 {
      RemoveAccentsAgree(x[1..], y[1..]);
    }
  }

  /** Letter case and accents do not change a slug: two names that spell
      the same letters up to case and accents (say "Ñandú" and "nandu")
      have the same slug. */
  lemma SlugIgnoresCaseAndAccents(a: string, b: string)
    requires |a| == |b|
    requires forall i :: 0 <= i < |a| ==> !IsCombiningMark(a[i]) && !IsCombiningMark(b[i]) && LetterKey(a[i]) == LetterKey(b[i])
    ensures Slugify(a) == Slugify(b)
  {
    RemoveAccentsAgree(ToLower(a), ToLower(b));
  }

  /** `slugify` is idempotent. */
  lemma SlugifyIdempotent(s: string)
    ensures Slugify(Slugify(s)) == Slugify(s)
  {
    SlugifyIsSlug(s);
    SlugFixpoint(Slugify(s));
  }

  // ---------------------------------------------------------------- what is kept

  /** Dropping a leading run of non-slug characters keeps every slug character. */
  lemma {:induction false} DropRunKeepsSlugChars(s: string)
    decreases |s|
    ensures Seqs.Filter(DropRun(s), IsSlugChar) == Seqs.Filter(s, IsSlugChar)
  {
    if |s| > 0 && !IsSlugChar(s[0]) {
      DropRunKeepsSlugChars(s[1..]);
    }
  }

  /** The replacement keeps every letter and digit, in order: only the
      characters outside `[a-z0-9]` are rewritten. */
  lemma {:induction false} CollapseKeepsSlugChars(s: string)
    decreases |s|
    ensures Seqs.Filter(Collapse(s), IsSlugChar) == Seqs.Filter(s, IsSlugChar)
  {
    if |s| > 0 {
      if IsSlugChar(s[0]) {
        CollapseKeepsSlugChars(s[1..]);
        var c := Collapse(s);
        assert c == [s[0]] + Collapse(s[1..]);
        assert c[1..] == Collapse(s[1..]);
      } else {
        var rest := DropRun(s[1..]);
        CollapseKeepsSlugChars(rest);
        DropRunKeepsSlugChars(s[1..]);
        var c := Collapse(s);
        assert c == "-" + Collapse(rest);
        assert c[1..] == Collapse(rest);
      }
    }
  }

  /** A run of non-slug characters before text that is empty or starts
      with a slug character is dropped entirely. */
  lemma {:induction false} DropRunAll(run: string, b: string)
    requires forall i :: 0 <= i < |run| ==> !IsSlugChar(run[i])
    requires |b| == 0 || IsSlugChar(b[0])
    ensures DropRun(run + b) == b
  {
    if |run| > 0 {
      assert (run + b)[1..] == run[1..] + b;
      DropRunAll(run[1..], b);
    } else {
      assert run + b == b;
    }
  }

  /** Dropping the leading run of text that ends in a slug character
      stops inside that text. */
  lemma {:induction false} DropRunAppend(x: string, y: string)
    requires |x| > 0 && IsSlugChar(x[|x| - 1])
    ensures DropRun(x + y) == DropRun(x) + y
  {
    if !IsSlugChar(x[0]) {
      assert |x| > 1;
      assert (x + y)[1..] == x[1..] + y;
      DropRunAppend(x[1..], y);
    }
  }

  /** Each maximal run of characters outside `[a-z0-9]` becomes exactly one
      dash: text ending in a slug character (or empty), a non-empty run,
      and text starting with a slug character (or empty) collapse part by
      part. */
  lemma {:induction false} CollapseRun(a: string, run: string, b: string)
    requires |a| == 0 || IsSlugChar(a[|a| - 1])
    requires |run| > 0 && forall i :: 0 <= i < |run| ==> !IsSlugChar(run[i])
    requires |b| == 0 || IsSlugChar(b[0])
    ensures Collapse(a + run + b) == Collapse(a) + "-" + Collapse(b)
    decreases |a|
  {
    if |a| == 0 {
      CollapseRunAtStart(a, run, b);
    } else if IsSlugChar(a[0]) {
      CollapseRun(a[1..], run, b);
      CollapseRunAfterSlug(a, run, b);
    } else {
      CollapseOtherHead(a, run + b);
      CollapseRun(DropRun(a[1..]), run, b);
      CollapseRunAfterOther(a, run, b);
    }
  }

  lemma {:induction false} CollapseRunAtStart(a: string, run: string, b: string)
    requires |a| == 0
    requires |run| > 0 && forall i :: 0 <= i < |run| ==> !IsSlugChar(run[i])
    requires |b| == 0 || IsSlugChar(b[0])
    ensures Collapse(a + run + b) == Collapse(a) + "-" + Collapse(b)
  {
    CollapseLeadingRun(run, b);
    assert a + run + b == run + b;
    EmptyGlue(a, Collapse(b));
  }

  lemma {:induction false} EmptyGlue(a: string, c: string)
    requires |a| == 0
    ensures Collapse(a) + "-" + c == "-" + c
  {
    assert Collapse(a) == "";
  }

  lemma {:induction false} CollapseRunAfterSlug(a: string, run: string, b: string)
    requires |a| > 0 && IsSlugChar(a[0])
    requires Collapse(a[1..] + run + b) == Collapse(a[1..]) + "-" + Collapse(b)
    ensures Collapse(a + run + b) == Collapse(a) + "-" + Collapse(b)
  {
    var t := run + b;
    var x := Collapse(a[1..]);
    var y := Collapse(b);
    Seqs.ConcatAssoc(a, run, b);
    Seqs.ConcatAssoc(a[1..], run, b);
    CollapseSlugHead(a, t);
    Seqs.ConcatAssoc([a[0]], x, "-");
    Seqs.ConcatAssoc([a[0]], x + "-", y);
  }

  lemma {:induction false} CollapseRunAfterOther(a: string, run: string, b: string)
    requires |a| > 0 && !IsSlugChar(a[0]) && IsSlugChar(a[|a| - 1])
    requires Collapse(DropRun(a[1..]) + run + b) == Collapse(DropRun(a[1..])) + "-" + Collapse(b)
    ensures Collapse(a + run + b) == Collapse(a) + "-" + Collapse(b)
  {
    var t := run + b;
    var x := Collapse(DropRun(a[1..]));
    var y := Collapse(b);
    Seqs.ConcatAssoc(a, run, b);
    Seqs.ConcatAssoc(DropRun(a[1..]), run, b);
    CollapseOtherHead(a, t);
    Seqs.ConcatAssoc("-", x, "-");
    Seqs.ConcatAssoc("-", x + "-", y);
  }

  lemma CollapseLeadingRun(run: string, b: string)
    requires |run| > 0 && forall i :: 0 <= i < |run| ==> !IsSlugChar(run[i])
    requires |b| == 0 || IsSlugChar(b[0])
    ensures Collapse(run + b) == "-" + Collapse(b)
  {
    var s := run + b;
    assert s[1..] == run[1..] + b;
    DropRunAll(run[1..], b);
  }

  lemma CollapseSlugHead(a: string, t: string)
    requires |a| > 0 && IsSlugChar(a[0])
    ensures Collapse(a + t) == [a[0]] + Collapse(a[1..] + t)
    ensures Collapse(a) == [a[0]] + Collapse(a[1..])
  {
    assert (a + t)[1..] == a[1..] + t;
  }

  lemma CollapseOtherHead(a: string, t: string)
    requires |a| > 0 && !IsSlugChar(a[0]) && IsSlugChar(a[|a| - 1])
    ensures Collapse(a + t) == "-" + Collapse(DropRun(a[1..]) + t)
    ensures Collapse(a) == "-" + Collapse(DropRun(a[1..]))
    ensures |DropRun(a[1..])| > 0 && IsSlugChar(DropRun(a[1..])[|DropRun(a[1..])| - 1])
    ensures |DropRun(a[1..])| < |a|
  {
    assert |a| > 1;
    assert (a + t)[1..] == a[1..] + t;
    DropRunAppend(a[1..], t);
  }

  /** `slugify` keeps every letter and digit of the lower-cased,
      accent-free name, in order: a name such as "Gorro de lana" keeps
      all of its letters. */
  lemma SlugifyKeepsLettersAndDigits(s: string)
    ensures Seqs.Filter(Slugify(s), IsSlugChar) == Seqs.Filter(RemoveAccents(ToLower(s)), IsSlugChar)
  {
    var c := Collapse(RemoveAccents(ToLower(s)));
    CollapseKeepsSlugChars(RemoveAccents(ToLower(s)));
    StripDashesKeepsSlugChars(c);
  }

  lemma StripDashesKeepsSlugChars(c: string)
    ensures Seqs.Filter(StripDashes(c), IsSlugChar) == Seqs.Filter(c, IsSlugChar)
  {
    var a := if |c| > 0 && c[0] == '-' then c[1..] else c;
    if |c| > 0 && c[0] == '-' {
      assert c == "-" + a;
      Seqs.FilterAppend("-", a, IsSlugChar);
    }
    if |a| > 0 && a[|a| - 1] == '-' {
      assert a == a[..|a| - 1] + "-";
      Seqs.FilterAppend(a[..|a| - 1], "-", IsSlugChar);
    }
  }
}
