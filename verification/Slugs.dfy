/** Task-id slugs (`slugify`, a rewrite loop) and profile slugs (`slug`, one pass). */
module Slugs {
  const MAX_SLUG := 48

  predicate IsAlphanumeric(c: char) {
    'A' <= c <= 'Z' || 'a' <= c <= 'z' || '0' <= c <= '9'
  }

  function AsciiLower(c: char): char {
    if 'A' <= c <= 'Z' then (c as int - 'A' as int + 'a' as int) as char else c
  }

  /** ASCII text without the two characters only `slugify` keeps. */
  predicate PlainAscii(value: string) {
    forall i :: 0 <= i < |value| ==> value[i] as int < 128 && value[i] != '_' && value[i] != '.'
  }

  /** What `slugify` keeps of one character. */
  function Keep(c: char): char {
    if IsAlphanumeric(c) || c == '_' || c == '.' || c == '-' then AsciiLower(c) else '-'
  }

  function KeepAll(value: string): (kept: string)
    ensures |kept| == |value|
  {
    if value == "" then "" else [Keep(value[0])] + KeepAll(value[1..])
  }

  predicate PairAt(s: string, i: nat)
    requires i + 1 < |s|
  {
    s[i] == '-' && s[i + 1] == '-'
  }

  predicate HasDoubleDash(s: string) {
    exists i :: 0 <= i < |s| - 1 && PairAt(s, i)
  }

  /** A contiguous piece of a string without `--` has no `--` either. */
  lemma PieceHasNoPair(s: string, lo: nat, hi: nat)
    requires lo <= hi <= |s|
    ensures HasDoubleDash(s[lo..hi]) ==> HasDoubleDash(s)
  {
    var piece := s[lo..hi];
    if i :| 0 <= i < |piece| - 1 && PairAt(piece, i) {
      assert PairAt(s, lo + i);
    }
  }

  /** `str::replace("--", "-")`: every non-overlapping pair, from the left. */
  function ReplacePairs(s: string): (r: string)
    ensures |r| <= |s|
    ensures HasDoubleDash(s) ==> |r| < |s|
  {
    if |s| < 2 then s
    else if s[0] == '-' && s[1] == '-' then "-" + ReplacePairs(s[2..])
    else
      assert HasDoubleDash(s) ==> HasDoubleDash(s[1..]) by {
        if i :| 0 <= i < |s| - 1 && PairAt(s, i) {
          assert PairAt(s[1..], i - 1);
        }
      }
      [s[0]] + ReplacePairs(s[1..])
  }

  /** Every maximal run of dashes becomes one dash, in a single pass. */
  function Collapse(s: string): (r: string)
    ensures |r| <= |s|
    ensures s != "" ==> r != "" && r[0] == s[0]
  {
    if |s| < 2 then s
    else if s[0] == '-' && s[1] == '-' then Collapse(s[1..])
    else [s[0]] + Collapse(s[1..])
  }

  lemma {:induction false} CollapseCons(c: char, s: string)
    ensures Collapse([c] + s) == if c == '-' && s != "" && s[0] == '-' then Collapse(s) else [c] + Collapse(s)
  {
    assert ([c] + s)[1..] == s;
  }

  /** A round of pair replacement keeps the collapsed form and the first character. */
  lemma {:induction false} ReplaceKeepsCollapse(s: string)
    ensures Collapse(ReplacePairs(s)) == Collapse(s)
    ensures s != "" ==> ReplacePairs(s) != "" && ReplacePairs(s)[0] == s[0]
  {
    if |s| >= 2 {
      if s[0] == '-' && s[1] == '-' {
        var rest := s[2..];
        ReplaceKeepsCollapse(rest);
        CollapseCons('-', ReplacePairs(rest));
        CollapseCons('-', rest);
        assert s[1..] == ['-'] + rest;
      } else {
        ReplaceKeepsCollapse(s[1..]);
        CollapseCons(s[0], ReplacePairs(s[1..]));
      }
    }
  }

  lemma {:induction false} CollapsedIsFixed(s: string)
    requires !HasDoubleDash(s)
    ensures Collapse(s) == s
  {
    if |s| >= 2 {
      assert !PairAt(s, 0);
      PieceHasNoPair(s, 1, |s|);
      assert s[1..|s|] == s[1..];
      CollapsedIsFixed(s[1..]);
    }
  }

  lemma {:induction false} CollapseHasNoPair(s: string)
    ensures !HasDoubleDash(Collapse(s))
  {
    if |s| >= 2 {
      CollapseHasNoPair(s[1..]);
      var r := Collapse(s[1..]);
      if !(s[0] == '-' && s[1] == '-') {
        forall i | 0 <= i < |r|
          ensures !PairAt([s[0]] + r, i)
        {
          assert i > 0 ==> !PairAt(r, i - 1);
        }
      }
    }
  }

  function TrimStart(s: string): (r: string)
    ensures r == "" || r[0] != '-'
  {
    if s != "" && s[0] == '-' then TrimStart(s[1..]) else s
  }

  function TrimEnd(s: string): (r: string)
    ensures r <= s
    ensures r == "" || r[|r| - 1] != '-'
  {
    if s != "" && s[|s| - 1] == '-' then TrimEnd(s[..|s| - 1]) else s
  }

  function Trim(s: string): string {
    TrimEnd(TrimStart(s))
  }

  function Cut(s: string): string {
    if |s| <= MAX_SLUG then s else s[..MAX_SLUG]
  }

  /** The one-pass reading of the slug before the cut: keep, collapse, trim. */
  function Whole(value: string): string {
    Trim(Collapse(KeepAll(value)))
  }

  function TaskSlug(value: string): string {
    Cut(Whole(value))
  }

  /** The rewriting loop ends and computes the one-pass reading. */
  method Slugify(value: string) returns (result: string)
    ensures result == TaskSlug(value)
  {
    var slug := KeepAll(value);
    while HasDoubleDash(slug)
      invariant Collapse(slug) == Collapse(KeepAll(value))
      decreases |slug|
    {
      ReplaceKeepsCollapse(slug);
      slug := ReplacePairs(slug);
    }
    CollapsedIsFixed(slug);
    result := Cut(Trim(slug));
  }

  lemma {:induction false} TrimStartIsSuffix(s: string) returns (lo: nat)
    ensures lo <= |s| && TrimStart(s) == s[lo..]
    ensures s == "" || s[0] != '-' ==> lo == 0
  {
    if s != "" && s[0] == '-' {
      lo := TrimStartIsSuffix(s[1..]);
      assert s[1..][lo..] == s[lo + 1..];
      lo := lo + 1;
    } else {
      lo := 0;
    }
  }

  predicate SlugChar(c: char) {
    'a' <= c <= 'z' || '0' <= c <= '9' || c == '_' || c == '.' || c == '-'
  }

  lemma {:induction false} CollapseKeepsCharacters(value: string)
    ensures forall c :: c in Collapse(KeepAll(value)) ==> SlugChar(c)
  {
    if value != "" {
      CollapseKeepsCharacters(value[1..]);
      CollapseCons(Keep(value[0]), KeepAll(value[1..]));
    }
  }

  /** What each character of the value becomes. */
  lemma KeepMeans(c: char)
    ensures var n := c as int;
            Keep(c) as int ==
              if 65 <= n <= 90 then n + 32
              else if 97 <= n <= 122 || 48 <= n <= 57 || c == '_' || c == '.' then n
              else 45
  {
  }

  lemma {:induction false} KeepAllAt(value: string, i: nat)
    requires i < |value|
    ensures KeepAll(value)[i] == Keep(value[i])
  {
    if i > 0 {
      KeepAllAt(value[1..], i - 1);
    }
  }

  lemma {:induction false} TrimmedEnd(s: string)
    ensures forall i :: |TrimEnd(s)| <= i < |s| ==> s[i] == '-'
  {
    if s != "" && s[|s| - 1] == '-' {
      TrimmedEnd(s[..|s| - 1]);
    }
  }

  lemma {:induction false} TrimmedStart(s: string)
    ensures |TrimStart(s)| <= |s| && s[|s| - |TrimStart(s)|..] == TrimStart(s)
    ensures forall i :: 0 <= i < |s| - |TrimStart(s)| ==> s[i] == '-'
  {
    if s != "" && s[0] == '-' {
      TrimmedStart(s[1..]);
      forall i | 0 <= i < |s| - |TrimStart(s)|
        ensures s[i] == '-'
      {
        assert i > 0 ==> s[i] == s[1..][i - 1];
      }
    }
  }

  /** Trimming drops the dashes at both ends and nothing else; the cut keeps the first 48 characters. */
  lemma TrimMeans(s: string) returns (lo: nat, hi: nat)
    ensures lo <= hi <= |s| && Trim(s) == s[lo..hi]
    ensures forall i :: 0 <= i < lo || hi <= i < |s| ==> s[i] == '-'
    ensures lo < hi ==> s[lo] != '-' && s[hi - 1] != '-'
    ensures Cut(s) == if |s| <= 48 then s else s[..48]
  {
    TrimmedStart(s);
    TrimmedEnd(TrimStart(s));
    lo := |s| - |TrimStart(s)|;
    hi := lo + |Trim(s)|;
    assert TrimStart(s)[..|Trim(s)|] == Trim(s);
    forall i | hi <= i < |s|
      ensures s[i] == '-'
    {
      assert s[i] == TrimStart(s)[i - lo];
    }
  }

  /** Shape of every task slug. It may still end with a dash: the cut comes after the trim. */
  lemma TaskSlugShape(value: string)
    ensures |TaskSlug(value)| <= MAX_SLUG
    ensures !HasDoubleDash(TaskSlug(value))
    ensures TaskSlug(value) == "" || TaskSlug(value)[0] != '-'
    ensures forall c :: c in TaskSlug(value) ==> SlugChar(c)
    ensures |TaskSlug(value)| < MAX_SLUG && TaskSlug(value) != "" ==> TaskSlug(value)[|TaskSlug(value)| - 1] != '-'
  {
    var collapsed := Collapse(KeepAll(value));
    CollapseHasNoPair(KeepAll(value));
    CollapseKeepsCharacters(value);
    var lo := TrimStartIsSuffix(collapsed);
    var hi := lo + |TaskSlug(value)|;
    assert TaskSlug(value) == collapsed[lo..hi];
    PieceHasNoPair(collapsed, lo, hi);
  }

  lemma {:induction false} KeepAllFixes(s: string)
    requires forall i :: 0 <= i < |s| ==> SlugChar(s[i])
    ensures KeepAll(s) == s
  {
    if s != "" {
      KeepAllFixes(s[1..]);
      assert Keep(s[0]) == s[0];
    }
  }

  /** Slugifying twice is slugifying once, exactly unless the cut falls behind a dash. */
  lemma SlugifyTwice(value: string)
    ensures var whole := Whole(value);
            TaskSlug(TaskSlug(value)) == TaskSlug(value) <==> !(|whole| > MAX_SLUG && whole[MAX_SLUG - 1] == '-')
  {
    var slug := TaskSlug(value);
    TaskSlugShape(value);
    KeepAllFixes(slug);
    CollapsedIsFixed(slug);
    assert TrimStart(slug) == slug;
    if slug != "" && slug[|slug| - 1] == '-' {
      assert |Trim(slug)| < |slug|;
    }
  }

  /** Forty-seven letters, a dash and one more letter: the cut leaves the dash. */
  function LongWord(): string {
    seq(MAX_SLUG - 1, _ => 'a') + "-b"
  }

  lemma TrimKeeps(s: string)
    requires s != "" && s[0] != '-' && s[|s| - 1] != '-'
    ensures Trim(s) == s
  {
  }

  lemma WholeKeeps(s: string)
    requires forall i :: 0 <= i < |s| ==> SlugChar(s[i])
    requires !HasDoubleDash(s) && s != "" && s[0] != '-' && s[|s| - 1] != '-'
    ensures Whole(s) == s
  {
    KeepAllFixes(s);
    CollapsedIsFixed(s);
    TrimKeeps(s);
  }

  lemma LongWordMeans()
    ensures var word := LongWord();
            && |word| == MAX_SLUG + 1
            && forall i :: 0 <= i < |word| ==>
                 word[i] == if i == MAX_SLUG - 1 then '-' else if i == MAX_SLUG then 'b' else 'a'
  {
  }

  /** The failure is real: the slug of the long word is not its own slug. */
  lemma SlugifyTwiceCanDiffer()
    ensures TaskSlug(TaskSlug(LongWord())) != TaskSlug(LongWord())
  {
    var word := LongWord();
    LongWordMeans();
    assert !HasDoubleDash(word);
    WholeKeeps(word);
    SlugifyTwice(word);
  }

  /** The lower-case expansion of each character in turn. */
  function LowerAll(value: string, lower: char -> string): string {
    if value == "" then "" else lower(value[0]) + LowerAll(value[1..], lower)
  }

  function Dashed(c: char): char {
    if IsAlphanumeric(c) then c else '-'
  }

  function DashAll(value: string): (r: string)
    ensures |r| == |value|
    ensures forall i :: 0 <= i < |r| ==> r[i] == Dashed(value[i])
  {
    if value == "" then "" else [Dashed(value[0])] + DashAll(value[1..])
  }

  /** Appending one character to a collapsed string. */
  lemma {:induction false} CollapseSnoc(s: string, c: char)
    ensures Collapse(s + [c]) == if c == '-' && s != "" && s[|s| - 1] == '-' then Collapse(s) else Collapse(s) + [c]
  {
    if s == "" {
      assert s + [c] == [c];
    } else {
      CollapseSnoc(s[1..], c);
      assert s + [c] == [s[0]] + (s[1..] + [c]);
      CollapseCons(s[0], s[1..] + [c]);
      CollapseCons(s[0], s[1..]);
      assert s == [s[0]] + s[1..];
      assert s[1..] != "" ==> (s[1..] + [c])[0] == s[1..][0];
    }
  }

  lemma {:induction false} DashAllSnoc(s: string, c: char)
    ensures DashAll(s + [c]) == DashAll(s) + [Dashed(c)]
  {
    assert |DashAll(s + [c])| == |s| + 1;
  }

  /** The one-pass slug: a flag replaces the rewriting. `lower` is the character's lower-case expansion. */
  method Slug(value: string, lower: char -> string) returns (out: string)
    ensures out == Collapse(DashAll(LowerAll(value, lower)))
  {
    out := "";
    var lastDash := false;
    var lowered := LowerAll(value, lower);
    for i := 0 to |lowered|
      invariant out == Collapse(DashAll(lowered[..i]))
      invariant lastDash <==> i > 0 && Dashed(lowered[i - 1]) == '-'
    {
      var c := lowered[i];
      assert lowered[..i + 1] == lowered[..i] + [c];
      DashAllSnoc(lowered[..i], c);
      CollapseSnoc(DashAll(lowered[..i]), Dashed(c));
      if IsAlphanumeric(c) {
        out := out + [c];
        lastDash := false;
      } else if !lastDash {
        out := out + ['-'];
        lastDash := true;
      }
    }
    assert lowered[..|lowered|] == lowered;
  }

  /** The Unicode expansion agrees with the ASCII one on ASCII. */
  ghost predicate LowersAscii(lower: char -> string) {
    forall c: char :: c as int < 128 ==> lower(c) == [AsciiLower(c)]
  }

  lemma {:induction false} LoweredAscii(value: string, lower: char -> string)
    requires PlainAscii(value)
    requires LowersAscii(lower)
    ensures DashAll(LowerAll(value, lower)) == KeepAll(value)
  {
    if value != "" {
      LoweredAscii(value[1..], lower);
      var head := value[0];
      assert lower(head) == [AsciiLower(head)];
      assert LowerAll(value, lower)[1..] == LowerAll(value[1..], lower);
      assert Dashed(AsciiLower(head)) == Keep(head);
    }
  }

  /** On ASCII text without `_` and `.` both slugs agree: the broker slug is the profile slug, trimmed and cut. */
  lemma SlugsAgree(value: string, lower: char -> string)
    requires PlainAscii(value)
    requires LowersAscii(lower)
    ensures TaskSlug(value) == Cut(Trim(Collapse(DashAll(LowerAll(value, lower)))))
  {
    LoweredAscii(value, lower);
  }
}
