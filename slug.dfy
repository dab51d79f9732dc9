/** Slug construction: internal/pkg/slug.go.
    A slug is the lower-cased title, with every single space turned into a
    dash and eight punctuation characters deleted, followed by `-<index>`. */
module Slug {

  /** The eight characters deleted from the title. */
  predicate IsStripped(c: char)
  {
    c == '.' || c == ',' || c == '!' || c == '?' || c == ':' || c == ';' || c == '\'' || c == '"'
  }

  /** The ReplaceAll calls of Slugify in order, each as (character replaced, replacement). */
  const Replacements: seq<(char, string)> :=
    [(' ', "-"), ('.', ""), (',', ""), ('!', ""), ('?', ""), (':', ""), (';', ""), ('\'', ""), ('"', "")]

  predicate IsUpper(c: char) { 'A' <= c <= 'Z' }

  predicate IsDigit(c: char) { '0' <= c <= '9' }

  /** Lower-casing of one character (ASCII letters only; see README). */
  function LowerChar(c: char): char
  {
    if IsUpper(c) then (c as int + 32) as char else c
  }

  /** strings.ToLower on ASCII: no upper-case letter is left, every other
      character is kept where it was, and each upper-case letter becomes its
      lower-case form. */
  function ToLower(s: string): (r: string)
    ensures |r| == |s|
    ensures forall k :: 0 <= k < |s| ==> r[k] == LowerChar(s[k])
    ensures forall k :: 0 <= k < |r| ==> !IsUpper(r[k])
    ensures forall k :: 0 <= k < |s| && !IsUpper(s[k]) ==> r[k] == s[k]
    ensures forall k :: 0 <= k < |s| && IsUpper(s[k]) ==> r[k] as int == s[k] as int + 32
  {
    seq(|s|, k requires 0 <= k < |s| => LowerChar(s[k]))
  }

  /** strings.ReplaceAll for a one-character pattern: every occurrence of `from`
      is replaced by `to`, each one separately (runs are not collapsed). */
  function ReplaceAll(s: string, from: char, to: string): string
  {
    if s == [] then []
    else (if s[0] == from then to else [s[0]]) + ReplaceAll(s[1..], from, to)
  }

  /** What ReplaceAll leaves: only characters of `s` other than `from`, and
      characters of `to`; so replacing with text that does not contain
      `from` removes every occurrence of it. */
  lemma {:induction false} ReplaceAllRemoves(s: string, from: char, to: string)
    ensures forall c :: c in ReplaceAll(s, from, to) ==> (c in s && c != from) || c in to
    ensures from !in to ==> from !in ReplaceAll(s, from, to)
  {
    if s != [] {
      ReplaceAllRemoves(s[1..], from, to);
    }
  }

  /** The chain of ReplaceAll calls, applied left to right. */
  function ApplyReplacements(s: string, reps: seq<(char, string)>): string
    decreases |reps|
  {
    if reps == [] then s else ApplyReplacements(ReplaceAll(s, reps[0].0, reps[0].1), reps[1..])
  }

  /** The title part of a slug, computed as the source does (slug.go lines 9-18). */
  function TitlePart(title: string): string
  {
    ApplyReplacements(ToLower(title), Replacements)
  }

  /** fmt.Sprintf("%d", n) for a non-negative n. */
  function FormatNat(n: nat): (r: string)
    ensures |r| >= 1
    ensures forall k :: 0 <= k < |r| ==> IsDigit(r[k])
    decreases n
  {
    if n < 10 then [('0' as int + n) as char]
    else FormatNat(n / 10) + [('0' as int + n % 10) as char]
  }

  /** fmt.Sprintf("%d", i) for any int: a minus sign for a negative i, then
      decimal digits that read back as |i|. */
  function FormatInt(i: int): (r: string)
    ensures i >= 0 ==> r == FormatNat(i)
    ensures i < 0 ==> r == "-" + FormatNat(-i)
    ensures i >= 0 ==> (forall k :: 0 <= k < |r| ==> IsDigit(r[k])) && ParseNat(r) == i
    ensures i < 0 ==> r[0] == '-' && (forall k :: 1 <= k < |r| ==> IsDigit(r[k])) && ParseNat(r[1..]) == -i
  {
    if i < 0 then
      ParseFormat(-i);
      assert ("-" + FormatNat(-i))[1..] == FormatNat(-i);
      "-" + FormatNat(-i)
    else
      ParseFormat(i);
      FormatNat(i)
  }

  function Slugify(title: string, index: int): string
  {
    TitlePart(title) + "-" + FormatInt(index)
  }

  // ---------------------------------------------------------------------
  // Reference definitions

  /** What one title character becomes, as a single pass would produce it. */
  function NormalChar(c: char): string
  {
    if c == ' ' then "-" else if IsStripped(c) then "" else [LowerChar(c)]
  }

  /** A one-pass reference for the title part: characters keep their order,
      a space becomes a dash, a stripped character disappears, anything else is lower-cased. */
  function Normalized(t: string): (r: string)
    ensures forall k :: 0 <= k < |r| ==> r[k] != ' ' && !IsStripped(r[k]) && !IsUpper(r[k])
  {
    if t == [] then [] else NormalChar(t[0]) + Normalized(t[1..])
  }

  /** The value of a string of decimal digits. */
  function ParseNat(s: string): nat
  {
    if s == [] then 0
    else ParseNat(s[..|s| - 1]) * 10 + (if IsDigit(s[|s| - 1]) then s[|s| - 1] as int - '0' as int else 0)
  }

  /** The text after the last dash (the whole string when it has none). */
  function AfterLastDash(s: string): (r: string)
    ensures '-' !in r
  {
    if s == [] then []
    else if s[|s| - 1] == '-' then []
    else AfterLastDash(s[..|s| - 1]) + [s[|s| - 1]]
  }

  /** The index a slug carries: the number after its last dash. */
  function SlugIndex(slug: string): nat
  {
    ParseNat(AfterLastDash(slug))
  }

  // ---------------------------------------------------------------------
  // The title part equals its one-pass reference

  lemma {:induction false} ReplaceAllConcat(a: string, b: string, from: char, to: string)
    ensures ReplaceAll(a + b, from, to) == ReplaceAll(a, from, to) + ReplaceAll(b, from, to)
  {
    if a == [] {
      assert a + b == b;
    } else {
      assert (a + b)[0] == a[0];
      assert (a + b)[1..] == a[1..] + b;
      ReplaceAllConcat(a[1..], b, from, to);
    }
  }

  lemma {:induction false} ApplyConcat(a: string, b: string, reps: seq<(char, string)>)
    ensures ApplyReplacements(a + b, reps) == ApplyReplacements(a, reps) + ApplyReplacements(b, reps)
    decreases |reps|
  {
    if reps != [] {
      ReplaceAllConcat(a, b, reps[0].0, reps[0].1);
      ApplyConcat(ReplaceAll(a, reps[0].0, reps[0].1), ReplaceAll(b, reps[0].0, reps[0].1), reps[1..]);
    }
  }

  lemma {:induction false} ApplyEmpty(reps: seq<(char, string)>)
    ensures ApplyReplacements([], reps) == []
    decreases |reps|
  {
    if reps != [] {
      ApplyEmpty(reps[1..]);
    }
  }

  /** A character no replacement mentions passes through unchanged. */
  lemma {:induction false} ApplyUntouched(c: char, reps: seq<(char, string)>)
    requires forall i :: 0 <= i < |reps| ==> reps[i].0 != c
    ensures ApplyReplacements([c], reps) == [c]
    decreases |reps|
  {
    if reps != [] {
      assert ReplaceAll([c], reps[0].0, reps[0].1) == [c];
      ApplyUntouched(c, reps[1..]);
    }
  }

  /** A character that some replacement deletes, with no earlier replacement
      mentioning it, disappears. */
  lemma {:induction false} ApplyDeletes(c: char, reps: seq<(char, string)>, i: nat)
    requires i < |reps| && reps[i] == (c, "")
    requires forall j :: 0 <= j < i ==> reps[j].0 != c
    ensures ApplyReplacements([c], reps) == []
    decreases |reps|
  {
    if i == 0 {
      assert ReplaceAll([c], c, "") == [];
      ApplyEmpty(reps[1..]);
    } else {
      assert ReplaceAll([c], reps[0].0, reps[0].1) == [c];
      ApplyDeletes(c, reps[1..], i - 1);
    }
  }

  /** Each replacement targets a space or one of the stripped characters. */
  lemma ReplacementTargets()
    ensures forall i :: 0 <= i < |Replacements| ==> Replacements[i].0 == ' ' || IsStripped(Replacements[i].0)
  {
    var reps := Replacements;
    forall i | 0 <= i < |reps|
      ensures reps[i].0 == ' ' || IsStripped(reps[i].0)
    {
      if i == 0 { } else if i == 1 { } else if i == 2 { } else if i == 3 { } else if i == 4 { }
      else if i == 5 { } else if i == 6 { } else if i == 7 { } else { assert i == 8; }
    }
  }

  lemma TitlePartChar(c: char)
    ensures ApplyReplacements([LowerChar(c)], Replacements) == NormalChar(c)
  {
    var reps := Replacements;
    if c == ' ' {
      assert ReplaceAll([' '], ' ', "-") == "-";
      ApplyUntouched('-', reps[1..]);
    } else if IsStripped(c) {
      var i := if c == '.' then 1 else if c == ',' then 2 else if c == '!' then 3
        else if c == '?' then 4 else if c == ':' then 5 else if c == ';' then 6
        else if c == '\'' then 7 else 8;
      ApplyDeletes(c, reps, i);
    } else {
      var l := LowerChar(c);
      assert l != ' ' && !IsStripped(l);
      ReplacementTargets();
      ApplyUntouched(l, reps);
    }
  }

  /** The chain of ReplaceAll calls equals the one-pass reference: spaces are
      replaced before punctuation is stripped, and every other character keeps
      its place after lower-casing. */
  lemma {:induction false} TitlePartIsNormalized(t: string)
    ensures TitlePart(t) == Normalized(t)
  {
    if t == [] {
      ApplyEmpty(Replacements);
    } else {
      assert ToLower(t) == [LowerChar(t[0])] + ToLower(t[1..]);
      ApplyConcat([LowerChar(t[0])], ToLower(t[1..]), Replacements);
      TitlePartChar(t[0]);
      TitlePartIsNormalized(t[1..]);
    }
  }

  /** Every slug is the normalized title, a dash, and the decimal index. */
  lemma SlugShape(title: string, index: int)
    ensures Slugify(title, index) == Normalized(title) + "-" + FormatInt(index)
  {
    TitlePartIsNormalized(title);
  }

  /** The title part of a slug contains no space, none of the stripped
      characters and no upper-case ASCII letter. */
  lemma TitlePartClean(title: string)
    ensures forall k :: 0 <= k < |TitlePart(title)| ==>
      TitlePart(title)[k] != ' ' && !IsStripped(TitlePart(title)[k]) && !IsUpper(TitlePart(title)[k])
  {
    TitlePartIsNormalized(title);
  }

  // ---------------------------------------------------------------------
  // The index can be read back, so Slugify is injective in it

  lemma {:induction false} ParseFormat(n: nat)
    ensures ParseNat(FormatNat(n)) == n
    decreases n
  {
    if n >= 10 {
      var s := FormatNat(n);
      assert s[..|s| - 1] == FormatNat(n / 10);
      ParseFormat(n / 10);
    }
  }

  lemma {:induction false} AfterLastDashOf(p: string, d: string)
    requires '-' !in d
    ensures AfterLastDash(p + "-" + d) == d
    decreases |d|
  {
    var s := p + "-" + d;
    if d != [] {
      assert s[..|s| - 1] == p + "-" + d[..|d| - 1];
      AfterLastDashOf(p, d[..|d| - 1]);
    }
  }

  /** Round trip: the number after a slug's last dash is the index it was built with. */
  lemma SlugIndexRoundTrip(title: string, index: int)
    requires index >= 0
    ensures SlugIndex(Slugify(title, index)) == index
  {
    var d := FormatNat(index);
    assert '-' !in d by {
      forall k | 0 <= k < |d| ensures d[k] != '-' { }
    }
    AfterLastDashOf(TitlePart(title), d);
    ParseFormat(index);
  }

  /** Two non-negative indices give the same slug only if they are equal and the
      titles normalize to the same text. */
  lemma SlugifyInjective(t1: string, t2: string, i: int, j: int)
    requires i >= 0 && j >= 0
    requires Slugify(t1, i) == Slugify(t2, j)
    ensures i == j
    ensures TitlePart(t1) == TitlePart(t2)
  {
    SlugIndexRoundTrip(t1, i);
    SlugIndexRoundTrip(t2, j);
    PrefixCancel(TitlePart(t1), TitlePart(t2), FormatInt(i));
  }

  lemma PrefixCancel(a: string, b: string, d: string)
    requires a + "-" + d == b + "-" + d
    ensures a == b
  {
    var s := a + "-" + d;
    assert a == s[..|a|];
    assert b == s[..|b|];
  }

  /** The one-pass reference distributes over concatenation. */
  lemma {:induction false} NormalizedConcat(a: string, b: string)
    ensures Normalized(a + b) == Normalized(a) + Normalized(b)
    decreases |a|
  {
    if a != [] {
      assert (a + b)[0] == a[0] && (a + b)[1..] == a[1..] + b;
      NormalizedConcat(a[1..], b);
    } else {
      assert a + b == b;
    }
  }

  /** Spaces are replaced one by one, before punctuation is stripped: wherever
      it stands, each space becomes its own dash and each stripped character
      disappears, so runs of spaces are not collapsed and "a . b" gives "a--b". */
  lemma NormalizedSeparator(a: string, c: char, b: string)
    requires c == ' ' || IsStripped(c)
    ensures Normalized(a + [c] + b) == Normalized(a) + (if c == ' ' then "-" else "") + Normalized(b)
  {
    NormalizedConcat(a + [c], b);
    NormalizedConcat(a, [c]);
    assert Normalized([c]) == NormalChar(c) + Normalized([]);
  }
}
