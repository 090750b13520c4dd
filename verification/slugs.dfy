/** The slugs that cmd/seed gives its listings. */
module Slugs {
  type WordChar = c: char | 'a' <= c <= 'z' || '0' <= c <= '9' witness 'a'

  predicate IsWordChar(c: char) {
    'a' <= c <= 'z' || '0' <= c <= '9'
  }

  predicate SlugAt(s: string, i: int)
    requires 0 <= i < |s|
  {
    IsWordChar(s[i]) || (s[i] == '-' && 0 < i < |s| - 1 && s[i - 1] != '-' && s[i + 1] != '-')
  }

  /** ^[a-z0-9]+(-[a-z0-9]+)*$ : dashes only between word characters. */
  ghost predicate Slug(s: string) {
    s != [] && forall i :: 0 <= i < |s| ==> SlugAt(s, i)
  }

  // -------------------------------------------------------------------------------------- slugify

  /** A character of the title once lowered, folded and decomposed: an accent, a word character, or
      anything else. */
  datatype Rune = Mark | Word(c: WordChar) | Other

  datatype Built = Built(out: string, pendingDash: bool)

  /** The title's words: what stands between other characters, accents left out. */
  function Pieces(runes: seq<Rune>): (ps: seq<string>)
    ensures ps != []
  {
    if runes == [] then [[]]
    else
      var n := |runes| - 1;
      var ps := Pieces(runes[..n]);
      match runes[n]
      case Mark => ps
      case Word(c) => ps[..|ps| - 1] + [ps[|ps| - 1] + [c]]
      case Other => ps + [[]]
  }

  function NonEmpty(ps: seq<string>): seq<string> {
    if ps == [] then []
    else
      var n := |ps| - 1;
      NonEmpty(ps[..n]) + if ps[n] != [] then [ps[n]] else []
  }

  function Dashed(ws: seq<string>): string {
    if ws == [] then []
    else if |ws| == 1 then ws[0]
    else Dashed(ws[..|ws| - 1]) + "-" + ws[|ws| - 1]
  }

  function TrimRight(s: string): string {
    if s != [] && s[|s| - 1] == '-' then TrimRight(s[..|s| - 1]) else s
  }

  function TrimLeft(s: string): string {
    if s != [] && s[0] == '-' then TrimLeft(s[1..]) else s
  }

  /** The slug before it is cut. */
  function Full(runes: seq<Rune>): string {
    Dashed(NonEmpty(Pieces(runes)))
  }

  function Slugified(runes: seq<Rune>): string {
    var s := Full(runes);
    if |s| > 100 then TrimRight(s[..100]) else s
  }

  ghost predicate BuiltFrom(out: string, pendingDash: bool, ps: seq<string>) {
    && ps != [] && out == Dashed(NonEmpty(ps))
    && (pendingDash <==> |ps| > 1 && ps[|ps| - 1] == [])
  }

  lemma WordExtends(out: string, pendingDash: bool, ps: seq<string>, c: WordChar)
    requires BuiltFrom(out, pendingDash, ps)
    ensures BuiltFrom(out + (if pendingDash && out != [] then "-" else "") + [c], false,
                      ps[..|ps| - 1] + [ps[|ps| - 1] + [c]])
  {
    var n := |ps| - 1;
    var now := ps[..n] + [ps[n] + [c]];
    assert now[..n] == ps[..n];
    var ws := NonEmpty(ps[..n]);
    assert (ws + [ps[n] + [c]])[..|ws|] == ws && (ws + [ps[n]])[..|ws|] == ws;
    if ps[n] == [] {
      assert NonEmpty(ps) == ws && [] + [c] == [c];
      DashedIsEmpty(ps[..n]);
      if n == 0 {
        assert ws == [];
      }
    }
  }

  lemma OtherExtends(out: string, pendingDash: bool, ps: seq<string>)
    requires BuiltFrom(out, pendingDash, ps)
    ensures BuiltFrom(out, true, ps + [[]])
  {
    assert (ps + [[]])[..|ps|] == ps && NonEmpty(ps) + [] == NonEmpty(ps);
  }

  lemma {:induction false} DashedIsEmpty(ps: seq<string>)
    ensures Dashed(NonEmpty(ps)) == [] <==> NonEmpty(ps) == []
  {
    if ps != [] {
      DashedIsEmpty(ps[..|ps| - 1]);
    }
  }

  method Slugify(runes: seq<Rune>) returns (s: string)
    ensures s == Slugified(runes)
  {
    var out, pendingDash := "", false;
    for i := 0 to |runes|
      invariant BuiltFrom(out, pendingDash, Pieces(runes[..i]))
    {
      assert runes[..i + 1][..i] == runes[..i];
      match runes[i]
      case Mark =>
      case Word(c) =>
        WordExtends(out, pendingDash, Pieces(runes[..i]), c);
        if pendingDash && |out| > 0 {
          out := out + "-";
        }
        pendingDash := false;
        out := out + [c];
      case Other =>
        OtherExtends(out, pendingDash, Pieces(runes[..i]));
        pendingDash := true;
    }
    assert runes[..|runes|] == runes;
    return if |out| > 100 then TrimRight(out[..100]) else out;
  }

  // ------------------------------------------------------------------------ what is in the slug

  /** Something that is neither a word character nor an accent came after the last word character. */
  ghost predicate OtherSinceWord(runes: seq<Rune>) {
    exists k :: 0 <= k < |runes| && runes[k].Other? && forall j :: k < j < |runes| ==> !runes[j].Word?
  }

  lemma OtherSnoc(runes: seq<Rune>, r: Rune)
    ensures OtherSinceWord(runes + [r]) <==> r.Other? || (OtherSinceWord(runes) && !r.Word?)
  {
    var n := |runes|;
    var all := runes + [r];
    if r.Other? {
      assert all[n].Other?;
    }
    if OtherSinceWord(runes) && !r.Word? {
      var k :| 0 <= k < n && runes[k].Other? && forall j :: k < j < n ==> !runes[j].Word?;
      assert all[k].Other? && forall j :: k < j < n ==> all[j] == runes[j];
    }
    if OtherSinceWord(all) && !r.Other? {
      var k :| 0 <= k <= n && all[k].Other? && forall j :: k < j <= n ==> !all[j].Word?;
      assert runes[k].Other? && forall j :: k < j < n ==> runes[j] == all[j];
      assert !all[n].Word?;
    }
  }

  ghost predicate Pending(runes: seq<Rune>) {
    var ps := Pieces(runes);
    |ps| > 1 && ps[|ps| - 1] == []
  }

  lemma {:induction false} PendingMeansOther(runes: seq<Rune>)
    ensures Pending(runes) <==> OtherSinceWord(runes)
  {
    if runes != [] {
      var front, r := runes[..|runes| - 1], runes[|runes| - 1];
      PendingMeansOther(front);
      OtherSnoc(front, r);
      assert runes == front + [r];
    }
  }

  /** Accents and other characters add nothing; a word character adds itself, behind a dash exactly
      when it is not the first and something else came since the last one. */
  lemma FullGrows(runes: seq<Rune>, c: WordChar)
    ensures Full([]) == []
    ensures Full(runes + [Mark]) == Full(runes) && Full(runes + [Other]) == Full(runes)
    ensures Full(runes + [Word(c)]) ==
            Full(runes) + (if Full(runes) != [] && OtherSinceWord(runes) then "-" else "") + [c]
  {
    var ps := Pieces(runes);
    PendingMeansOther(runes);
    assert (runes + [Mark])[..|runes|] == runes && (runes + [Other])[..|runes|] == runes;
    assert (runes + [Word(c)])[..|runes|] == runes;
    WordExtends(Full(runes), Pending(runes), ps, c);
    OtherExtends(Full(runes), Pending(runes), ps);
  }

  function Letters(runes: seq<Rune>): string {
    if runes == [] then []
    else Letters(runes[..|runes| - 1]) + if runes[|runes| - 1].Word? then [runes[|runes| - 1].c] else []
  }

  function WithoutDashes(s: string): string {
    if s == [] then []
    else WithoutDashes(s[..|s| - 1]) + if s[|s| - 1] == '-' then [] else [s[|s| - 1]]
  }

  lemma UndashSnoc(s: string, dash: bool, c: WordChar)
    ensures WithoutDashes(s + (if dash then "-" else "") + [c]) == WithoutDashes(s) + [c]
  {
    var t := s + if dash then "-" else "";
    assert (s + "-")[..|s|] == s && s + "" == s;
    assert (t + [c])[..|t|] == t;
  }

  /** What slugify has written holds exactly the letters seen. */
  ghost predicate Holds(s: string, letters: string) {
    WithoutDashes(s) == letters && (s == [] <==> letters == [])
  }

  lemma HoldsOne(s: string, letters: string, dash: bool, c: WordChar)
    requires Holds(s, letters)
    ensures Holds(s + (if dash then "-" else "") + [c], letters + [c])
  {
    UndashSnoc(s, dash, c);
  }

  lemma LettersSnoc(runes: seq<Rune>, r: Rune)
    requires Holds(Full(runes), Letters(runes))
    ensures Holds(Full(runes + [r]), Letters(runes + [r]))
  {
    var c := if r.Word? then r.c else 'a';
    assert (runes + [r])[..|runes|] == runes;
    FullGrows(runes, c);
    HoldsOne(Full(runes), Letters(runes), Full(runes) != [] && OtherSinceWord(runes), c);
  }

  /** Without its dashes the slug is the title's word characters, in their order. */
  lemma {:induction false} LettersStay(runes: seq<Rune>)
    ensures Holds(Full(runes), Letters(runes))
  {
    if runes == [] {
      FullGrows([], 'a');
    } else {
      LettersStay(runes[..|runes| - 1]);
      LettersSnoc(runes[..|runes| - 1], runes[|runes| - 1]);
      assert runes == runes[..|runes| - 1] + [runes[|runes| - 1]];
    }
  }

  lemma {:induction false} NoWordNoLetters(runes: seq<Rune>)
    ensures Letters(runes) != [] <==> exists i :: 0 <= i < |runes| && runes[i].Word?
  {
    if runes != [] {
      NoWordNoLetters(runes[..|runes| - 1]);
      if i :| 0 <= i < |runes| - 1 && runes[i].Word? {
        assert runes[..|runes| - 1][i].Word?;
      }
    }
  }

  // ----------------------------------------------------------------------------- what slugs allow

  ghost predicate IsWord(w: string) {
    w != [] && forall i :: 0 <= i < |w| ==> IsWordChar(w[i])
  }

  lemma SlugConcat(a: string, b: string)
    requires Slug(a) && Slug(b)
    ensures Slug(a + "-" + b)
  {
    var s := a + "-" + b;
    forall i | 0 <= i < |s| ensures SlugAt(s, i) {
      if i < |a| {
        assert SlugAt(a, i) && s[i] == a[i];
      } else if i > |a| {
        assert SlugAt(b, i - |a| - 1) && s[i] == b[i - |a| - 1];
      } else {
        assert SlugAt(a, |a| - 1) && SlugAt(b, 0);
        assert s[i - 1] == a[i - 1] && s[i + 1] == b[0];
      }
    }
  }

  lemma {:induction false} PiecesAreWords(runes: seq<Rune>)
    ensures forall p :: p in Pieces(runes) ==> p == [] || IsWord(p)
  {
    if runes != [] {
      var n := |runes| - 1;
      PiecesAreWords(runes[..n]);
      var ps := Pieces(runes[..n]);
      assert ps[|ps| - 1] in ps;
    }
  }

  lemma {:induction false} NonEmptyAreWords(ps: seq<string>)
    requires forall p :: p in ps ==> p == [] || IsWord(p)
    ensures forall w :: w in NonEmpty(ps) ==> IsWord(w)
  {
    if ps != [] {
      NonEmptyAreWords(ps[..|ps| - 1]);
    }
  }

  lemma {:induction false} DashedIsSlug(ws: seq<string>)
    requires ws != [] && forall w :: w in ws ==> IsWord(w)
    ensures Slug(Dashed(ws))
  {
    var n := |ws| - 1;
    assert IsWord(ws[n]) && Slug(ws[n]);
    if n > 0 {
      DashedIsSlug(ws[..n]);
      SlugConcat(Dashed(ws[..n]), ws[n]);
    }
  }

  /** A slug cut anywhere, its last dash dropped, is a slug. */
  lemma CutIsSlug(s: string, n: nat)
    requires Slug(s) && 1 <= n <= |s|
    ensures var k := if s[n - 1] == '-' then n - 1 else n;
      k >= 1 && TrimRight(s[..n]) == s[..k] && Slug(s[..k])
  {
    assert SlugAt(s, 0) && SlugAt(s, n - 1);
    var k := if s[n - 1] == '-' then n - 1 else n;
    assert k < n ==> s[..n][..n - 1] == s[..k];
    assert s[..k][k - 1] == s[k - 1];
    forall i | 0 <= i < k ensures SlugAt(s[..k], i) {
      assert SlugAt(s, i) && s[..k][i] == s[i];
    }
  }

  ghost predicate HasWord(runes: seq<Rune>) {
    exists i :: 0 <= i < |runes| && runes[i].Word?
  }

  /** Whatever the title, slugify gives a slug of at most 100 characters, or nothing at all when the
      title has no word character. */
  lemma SlugifiedIsSlug(runes: seq<Rune>)
    ensures var s := Slugified(runes);
      && |s| <= 100 && (Slug(s) || s == []) && (s == [] <==> !HasWord(runes))
      && s <= Full(runes) && (|Full(runes)| <= 100 ==> s == Full(runes))
      && (|Full(runes)| > 100 ==> |s| >= 99)
  {
    PiecesAreWords(runes);
    NonEmptyAreWords(Pieces(runes));
    LettersStay(runes);
    NoWordNoLetters(runes);
    var ws := NonEmpty(Pieces(runes));
    if ws != [] {
      DashedIsSlug(ws);
      if |Dashed(ws)| > 100 {
        CutIsSlug(Dashed(ws), 100);
      }
    }
  }

  // ------------------------------------------------------------------------------------- clipSlug

  /** The last dash, or -1. */
  function LastDash(s: string): (i: int)
    ensures -1 <= i < |s|
    ensures i >= 0 ==> s[i] == '-'
    ensures forall k :: i < k < |s| ==> s[k] != '-'
  {
    if s == [] then -1 else if s[|s| - 1] == '-' then |s| - 1 else LastDash(s[..|s| - 1])
  }

  function ClipSlug(s: string, n: nat): string {
    if |s| <= n then s
    else
      var cut, rest := s[..n], s[n];
      var i := LastDash(cut);
      TrimLeft(TrimRight(if i > 0 && rest != '-' then cut[..i] else cut))
  }

  /** Where a slug may be cut: at its end or before a dash. */
  predicate Boundary(s: string, k: int) {
    k == |s| || (0 <= k < |s| && s[k] == '-')
  }

  /** Clipping a slug to n >= 1 gives a slug, the longest beginning of it that ends on a word
      boundary within n, or the first n characters when its first word is longer than that. */
  lemma ClipIsLongest(s: string, n: nat)
    requires Slug(s) && n >= 1
    ensures var r := ClipSlug(s, n);
      && Slug(r) && r <= s && |r| <= n
      && (Boundary(s, |r|) || (|r| == n && '-' !in r))
      && forall k :: 0 <= k <= n && Boundary(s, k) ==> k <= |r|
  {
    if |s| > n {
      assert SlugAt(s, 0) && SlugAt(s, n);
      var i := LastDash(s[..n]);
      var k := if i > 0 && s[n] != '-' then i else n;
      assert s[..n][..k] == s[..k];
      assert k >= 1 && s[k - 1] != '-' by {
        if k == i {
          assert s[i] == s[..n][i] && SlugAt(s, i);
        } else {
          assert s[..n][n - 1] == s[n - 1] && SlugAt(s, n - 1);
        }
      }
      CutIsSlug(s, k);
      assert TrimLeft(s[..k]) == s[..k];
      forall j | 0 <= j <= n && Boundary(s, j) ensures j <= k {
        assert j < n ==> s[..n][j] == s[j];
      }
      if i <= 0 {
        forall j | 0 <= j < n ensures s[..n][j] != '-' {
        }
      }
    }
  }

  // ----------------------------------------------------------------------------------- uniqueSlug

  function Decimal(n: nat): (s: string)
    ensures s != [] && forall i :: 0 <= i < |s| ==> '0' <= s[i] <= '9'
    ensures n > 0 ==> s[0] != '0'
  {
    var digit := ('0' as int + n % 10) as char;
    if n < 10 then [digit] else Decimal(n / 10) + [digit]
  }

  function Value(s: string): int {
    if s == [] then 0 else 10 * Value(s[..|s| - 1]) + (s[|s| - 1] as int - '0' as int)
  }

  lemma {:induction false} DecimalValue(n: nat)
    ensures Value(Decimal(n)) == n
  {
    if n < 10 {
      assert Decimal(n)[..0] == [];
    } else {
      DecimalValue(n / 10);
      assert Decimal(n)[..|Decimal(n)| - 1] == Decimal(n / 10);
    }
  }

  function Suffixed(base: string, n: nat): string {
    base + "-" + Decimal(n)
  }

  lemma SuffixesDiffer(base: string, m: nat, n: nat)
    requires Suffixed(base, m) == Suffixed(base, n)
    ensures m == n
  {
    assert Suffixed(base, m)[|base| + 1..] == Decimal(m);
    assert Suffixed(base, n)[|base| + 1..] == Decimal(n);
    DecimalValue(m);
    DecimalValue(n);
  }

  lemma SuffixedIsSlug(base: string, n: nat)
    requires Slug(base)
    ensures Slug(Suffixed(base, n)) && Suffixed(base, n) != base
  {
    var d := Decimal(n);
    assert forall i :: 0 <= i < |d| ==> SlugAt(d, i);
    SlugConcat(base, d);
    assert |Suffixed(base, n)| > |base|;
  }

  function BaseOf(title: seq<Rune>): string {
    var base := ClipSlug(Slugified(title), 80);
    if base == [] then "tin-dang" else base
  }

  /** base is all of the title's slug, if that fits into 80 characters, and otherwise the longest
      beginning of it that ends a word within 80, or 80 characters of its first word. */
  ghost predicate Beginning(base: string, s: string) {
    && base != [] && base <= s && |base| <= 80
    && (|s| <= 80 ==> base == s)
    && (Boundary(s, |base|) || (|base| == 80 && '-' !in base))
    && forall k :: 0 <= k <= 80 && Boundary(s, k) ==> k <= |base|
  }

  lemma FallbackIsSlug()
    ensures Slug("tin-dang")
  {
    var d := "tin-dang";
    assert forall i :: 0 <= i < |d| ==> SlugAt(d, i);
  }

  lemma ClippedIsBeginning(s: string)
    requires Slug(s)
    ensures Slug(ClipSlug(s, 80)) && Beginning(ClipSlug(s, 80), s)
  {
    ClipIsLongest(s, 80);
  }

  lemma BaseIsSlug(title: seq<Rune>)
    ensures Slug(BaseOf(title)) && |BaseOf(title)| <= 80
    ensures HasWord(title) ==> Beginning(BaseOf(title), Slugified(title))
    ensures !HasWord(title) ==> BaseOf(title) == "tin-dang"
  {
    SlugifiedIsSlug(title);
    var s := Slugified(title);
    if HasWord(title) {
      ClippedIsBeginning(s);
    }
    FallbackIsSlug();
  }

  /** The n-th name tried: the base itself, then base-2, base-3 and so on. */
  function Candidate(base: string, n: nat): string {
    if n < 2 then base else Suffixed(base, n)
  }

  lemma CandidatesDiffer(base: string, m: nat, n: nat)
    requires 1 <= m < n && Slug(base)
    ensures Candidate(base, m) != Candidate(base, n)
  {
    SuffixedIsSlug(base, n);
    if m >= 2 && Candidate(base, m) == Candidate(base, n) {
      SuffixesDiffer(base, m, n);
    }
  }

  /** The first n candidates are the names tried. */
  ghost predicate Tried(base: string, tried: set<string>, n: nat) {
    && (forall k :: 1 <= k < n ==> Candidate(base, k) in tried)
    && forall t :: t in tried ==> exists k :: 1 <= k < n && t == Candidate(base, k)
  }

  lemma TryNext(base: string, tried: set<string>, n: nat)
    requires n >= 1 && Slug(base) && Tried(base, tried, n)
    ensures Candidate(base, n) !in tried && Tried(base, tried + {Candidate(base, n)}, n + 1)
    ensures Slug(Candidate(base, n + 1)) && Candidate(base, n + 1) == base + "-" + Decimal(n + 1)
  {
    SuffixedIsSlug(base, n + 1);
    if Candidate(base, n) in tried {
      var k :| 1 <= k < n && Candidate(base, n) == Candidate(base, k);
      CandidatesDiffer(base, k, n);
    }
  }

  /** The slugs given so far. */
  class Taken {
    var taken: set<string>

    constructor ()
      ensures taken == {}
    {
      taken := {};
    }

    /** Ends, since the names tried are all different, with the first candidate not yet taken. */
    method FirstFree(base: string) returns (slug: string, ghost n: nat)
      requires Slug(base)
      modifies this
      ensures slug !in old(taken) && taken == old(taken) + {slug} && Slug(slug)
      ensures n >= 1 && slug == if n == 1 then base else base + "-" + Decimal(n)
      ensures n > 1 ==> base in old(taken)
      ensures forall k :: 2 <= k < n ==> base + "-" + Decimal(k) in old(taken)
    {
      slug, n := base, 1;
      var next := 2;
      ghost var tried: set<string> := {};
      while slug in taken
        invariant taken == old(taken) && next == n + 1 && slug == Candidate(base, n) && Slug(slug)
        invariant tried <= taken && n >= 1 && Tried(base, tried, n)
        decreases taken - tried
      {
        TryNext(base, tried, n);
        tried := tried + {slug};
        slug := base + "-" + Decimal(next);
        n, next := next, next + 1;
      }
      assert n > 1 ==> Candidate(base, 1) in tried;
      forall k | 2 <= k < n ensures base + "-" + Decimal(k) in old(taken) {
        assert Candidate(base, k) in tried;
      }
      taken := taken + {slug};
    }

    /** A slug of the title's own, told apart from the earlier ones by a number where it must be. */
    method UniqueSlug(title: seq<Rune>) returns (slug: string, ghost base: string, ghost n: nat)
      modifies this
      ensures slug !in old(taken) && taken == old(taken) + {slug} && Slug(slug)
      ensures HasWord(title) ==> Beginning(base, Slugified(title))
      ensures !HasWord(title) ==> base == "tin-dang"
      ensures n >= 1 && slug == if n == 1 then base else base + "-" + Decimal(n)
      ensures n > 1 ==> base in old(taken)
      ensures forall k :: 2 <= k < n ==> base + "-" + Decimal(k) in old(taken)
    {
      var s := Slugify(title);
      var name := ClipSlug(s, 80);
      if name == "" {
        name := "tin-dang";
      }
      BaseIsSlug(title);
      base := name;
      slug, n := FirstFree(name);
    }
  }

  /** The slugs of a plan, one for each title, differ from each other. */
  method PlanSlugs(titles: seq<seq<Rune>>) returns (slugs: seq<string>)
    ensures |slugs| == |titles| && forall i :: 0 <= i < |slugs| ==> Slug(slugs[i])
    ensures forall i, j :: 0 <= i < j < |slugs| ==> slugs[i] != slugs[j]
  {
    var names := new Taken();
    slugs := [];
    for m := 0 to |titles|
      invariant |slugs| == m && fresh(names) && forall i :: 0 <= i < m ==> Slug(slugs[i])
      invariant forall i :: 0 <= i < m ==> slugs[i] in names.taken
      invariant forall i, j :: 0 <= i < j < m ==> slugs[i] != slugs[j]
    {
      var slug, _, _ := names.UniqueSlug(titles[m]);
      slugs := slugs + [slug];
    }
  }
}
