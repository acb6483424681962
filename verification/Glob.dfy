// strcasemask of source/bforce/u_misc.c: masks with ?, * and \, compared without regard to
// case, and exactly when that is ordinary matching.
module Glob {
  // toupper in the C locale
  function Upper(c: char): char {
    if 'a' <= c <= 'z' then c - 'a' + 'A' else c
  }

  const SMALL := "abcdefghijklmnopqrstuvwxyz"
  const CAPITAL := "ABCDEFGHIJKLMNOPQRSTUVWXYZ"

  lemma UpperIs(k: nat)
    requires k < 26
    ensures Upper(SMALL[k]) == CAPITAL[k]
  {
    assert SMALL[k] as int == 97 + k && CAPITAL[k] as int == 65 + k;
  }

  lemma UpperLeaves(c: char)
    ensures Upper(c) == c || c in SMALL
  {
    if 'a' <= c <= 'z' {
      assert SMALL[c as int - 97] == c;
    }
  }

  datatype Token = Lit(c: char) | Any | Star

  // A mask read from the left; a backslash at its end stands for itself.
  function Tokens(mask: string): (ts: seq<Token>)
    ensures |ts| <= |mask| && (mask != "" ==> ts != [])
  {
    if mask == "" then []
    else if mask[0] == '\\' then
      if |mask| == 1 then [Lit('\\')] else [Lit(mask[1])] + Tokens(mask[2..])
    else if mask[0] == '?' then [Any] + Tokens(mask[1..])
    else if mask[0] == '*' then [Star] + Tokens(mask[1..])
    else [Lit(mask[0])] + Tokens(mask[1..])
  }

  // A backslash takes its meaning from the character behind it, and the others stand for
  // themselves but for ? and *.
  lemma TokensFirst(c: char, rest: string)
    ensures Tokens(['\\', c] + rest) == [Lit(c)] + Tokens(rest)
    ensures Tokens("\\") == [Lit('\\')]
    ensures c != '\\' ==>
              Tokens([c] + rest) == [if c == '?' then Any else if c == '*' then Star else Lit(c)] + Tokens(rest)
  {
    assert (['\\', c] + rest)[2..] == rest && ([c] + rest)[1..] == rest;
  }

  function SkipStars(ts: seq<Token>): (r: seq<Token>)
    ensures |r| <= |ts| && (r != [] ==> !r[0].Star?)
  {
    if ts != [] && ts[0].Star? then SkipStars(ts[1..]) else ts
  }

  // What the procedure decides: a star is tried against every non-empty rest of the string,
  // except that a star at the very end matches at once.
  predicate Matches(s: string, ts: seq<Token>)
    decreases |ts|, 0
  {
    if s == "" then ts == []
    else if ts == [] then false
    else
      match ts[0]
      case Lit(c) => Upper(c) == Upper(s[0]) && Matches(s[1..], ts[1..])
      case Any => Matches(s[1..], ts[1..])
      case Star => |ts| == 1 || SomeRest(s, SkipStars(ts[1..]))
  }

  predicate SomeRest(s: string, ts: seq<Token>)
    decreases |ts|, 1, |s|
  {
    s != "" && (Matches(s, ts) || SomeRest(s[1..], ts))
  }

  // Ordinary matching: a star stands for any number of characters, also none.
  predicate Ordinary(s: string, ts: seq<Token>)
    decreases |s| + |ts|
  {
    if ts == [] then s == ""
    else
      match ts[0]
      case Lit(c) => s != "" && Upper(c) == Upper(s[0]) && Ordinary(s[1..], ts[1..])
      case Any => s != "" && Ordinary(s[1..], ts[1..])
      case Star => Ordinary(s, ts[1..]) || (s != "" && Ordinary(s[1..], ts))
  }

  predicate AllStars(ts: seq<Token>) {
    forall i :: 0 <= i < |ts| ==> ts[i].Star?
  }

  // What the procedure's masks mean in ordinary terms: one star at the end has to match
  // something, several there match nothing at all.
  datatype Meaning = Never | Mask(ts: seq<Token>)

  function Meant(ts: seq<Token>): Meaning {
    if ts == [] then Mask([])
    else if ts == [Star] then Mask([Any, Star])
    else if AllStars(ts) then Never
    else
      match Meant(ts[1..])
      case Never => Never
      case Mask(r) => Mask([ts[0]] + r)
  }

  predicate Decides(s: string, m: Meaning) {
    m.Mask? && Ordinary(s, m.ts)
  }

  lemma {:induction false} NothingNeedsStars(ts: seq<Token>)
    ensures Ordinary("", ts) == AllStars(ts)
    decreases |ts|
  {
    if ts != [] {
      NothingNeedsStars(ts[1..]);
      assert AllStars(ts) ==> AllStars(ts[1..]);
      assert ts[0].Star? && AllStars(ts[1..]) ==> AllStars(ts) by {
        assert forall i :: 1 <= i < |ts| ==> ts[i] == ts[1..][i - 1];
      }
    }
  }

  lemma {:induction false} StarMatchesAll(s: string)
    ensures Ordinary(s, [Star])
  {
    if s != "" {
      StarMatchesAll(s[1..]);
    }
  }

  // A meaning that is not empty contains something to match.
  lemma {:induction false} MeantIsSolid(ts: seq<Token>)
    ensures ts != [] && Meant(ts).Mask? ==> Meant(ts).ts != [] && !AllStars(Meant(ts).ts)
    decreases |ts|
  {
    if ts != [] && ts != [Star] && !AllStars(ts) && Meant(ts[1..]).Mask? {
      MeantIsSolid(ts[1..]);
      var r := Meant(ts[1..]).ts;
      if ts[1..] == [] {
        assert ts == [ts[0]];
        assert Meant(ts).ts[0] == ts[0];
      } else {
        var i :| 0 <= i < |r| && !r[i].Star?;
        assert ([ts[0]] + r)[i + 1] == r[i];
      }
    } else if ts == [Star] {
      assert !Meant(ts).ts[0].Star?;
    }
  }

  lemma {:induction false} SkipKeepsMeaning(ts: seq<Token>)
    ensures SkipStars(ts) == [] <==> AllStars(ts)
    decreases |ts|
  {
    if ts != [] && ts[0].Star? {
      SkipKeepsMeaning(ts[1..]);
      assert AllStars(ts) <==> AllStars(ts[1..]) by {
        assert forall i :: 1 <= i < |ts| ==> ts[i] == ts[1..][i - 1];
      }
    }
  }

  predicate SomeMeant(s: string, m: Meaning)
    decreases |s|
  {
    s != "" && (Decides(s, m) || SomeMeant(s[1..], m))
  }

  lemma {:induction false} NeverMatches(s: string)
    ensures !SomeMeant(s, Never)
  {
    if s != "" {
      NeverMatches(s[1..]);
    }
  }

  lemma StarFirst(ts: seq<Token>)
    requires ts != [] && ts[0].Star? && SkipStars(ts) != []
    ensures SkipStars(ts) == SkipStars(ts[1..]) && ts[1..] != []
    ensures Meant(ts) == match Meant(ts[1..]) case Never => Never case Mask(r) => Mask([Star] + r)
  {
    SkipKeepsMeaning(ts);
  }

  // Before something solid, any number of stars is one.
  lemma {:induction false} StarsCollapse(s: string, ts: seq<Token>)
    requires ts != [] && ts[0].Star? && SkipStars(ts) != []
    ensures Decides(s, Meant(ts)) == SomeMeant(s, Meant(SkipStars(ts)))
    decreases |ts|, |s|
  {
    hide Meant, AllStars;
    var rest := ts[1..];
    var r := SkipStars(ts);
    StarFirst(ts);
    MeantIsSolid(r);
    NeverMatches(s);
    if rest[0].Star? {
      StarsCollapse(s, rest);
      if s != "" {
        StarsCollapse(s[1..], ts);
      }
    } else if s != "" {
      StarsCollapse(s[1..], ts);
    } else if Meant(r).Mask? {
      NothingNeedsStars(Meant(r).ts);
    }
    if Meant(rest).Mask? {
      assert ([Star] + Meant(rest).ts)[1..] == Meant(rest).ts;
    }
  }

  lemma {:induction false} RestsDecide(s: string, ts: seq<Token>)
    requires forall u: string :: |u| <= |s| ==> Matches(u, ts) == Decides(u, Meant(ts))
    ensures SomeRest(s, ts) == SomeMeant(s, Meant(ts))
    decreases |s|
  {
    if s != "" {
      RestsDecide(s[1..], ts);
    }
  }

  // For every string and mask the procedure decides what its mask means.
  lemma {:induction false} MatchesIsMeant(s: string, ts: seq<Token>)
    ensures Matches(s, ts) == Decides(s, Meant(ts))
    decreases |ts|, |s|
  {
    hide Meant, AllStars;
    MeantIsSolid(ts);
    if s == "" {
      MeantEmpty(ts);
      if Meant(ts).Mask? {
        NothingNeedsStars(Meant(ts).ts);
      }
    } else if ts == [] {
      MeantEmpty(ts);
    } else if ts[0].Star? {
      StarDecides(s, ts);
    } else {
      MatchesIsMeant(s[1..], ts[1..]);
      SolidFirst(ts);
      if Meant(ts[1..]).Mask? {
        assert ([ts[0]] + Meant(ts[1..]).ts)[1..] == Meant(ts[1..]).ts;
      }
    }
  }

  lemma MeantEmpty(ts: seq<Token>)
    ensures ts == [] ==> Meant(ts) == Mask([])
    ensures AllStars([])
  {
  }

  lemma SolidFirst(ts: seq<Token>)
    requires ts != [] && !ts[0].Star?
    ensures Meant(ts) == match Meant(ts[1..]) case Never => Never case Mask(r) => Mask([ts[0]] + r)
  {
  }

  lemma {:induction false} StarDecides(s: string, ts: seq<Token>)
    requires s != "" && ts != [] && ts[0].Star?
    ensures Matches(s, ts) == Decides(s, Meant(ts))
    decreases |ts|, |s|, 0
  {
    SkipKeepsMeaning(ts);
    if |ts| == 1 {
      assert ts == [Star];
      StarMatchesAll(s[1..]);
      assert [Any, Star][1..] == [Star];
    } else {
      var r := SkipStars(ts[1..]);
      if r == [] {
        NoRestMatchesNothing(s);
      } else {
        forall u: string | |u| <= |s| ensures Matches(u, r) == Decides(u, Meant(r)) {
          MatchesIsMeant(u, r);
        }
        RestsDecide(s, r);
        StarsCollapse(s, ts);
      }
    }
  }

  lemma {:induction false} NoRestMatchesNothing(s: string)
    ensures !SomeRest(s, [])
  {
    if s != "" {
      NoRestMatchesNothing(s[1..]);
    }
  }

  predicate EndsInStar(ts: seq<Token>) {
    ts != [] && ts[|ts| - 1].Star?
  }

  lemma {:induction false} MeantWithoutStar(ts: seq<Token>)
    requires !EndsInStar(ts)
    ensures Meant(ts) == Mask(ts)
    decreases |ts|
  {
    if ts != [] {
      assert !AllStars(ts) by { assert !ts[|ts| - 1].Star?; }
      MeantWithoutStar(ts[1..]);
      assert [ts[0]] + ts[1..] == ts;
    }
  }

  // Masks that do not end in an unescaped star match in the ordinary sense.
  lemma OrdinaryMasks(s: string, mask: string)
    requires !EndsInStar(Tokens(mask))
    ensures Matches(s, Tokens(mask)) == Ordinary(s, Tokens(mask))
  {
    MatchesIsMeant(s, Tokens(mask));
    MeantWithoutStar(Tokens(mask));
  }

  // One that does differs from it for some string: that which its other tokens make up.
  lemma StarAtTheEndDiffers(ts: seq<Token>)
    requires EndsInStar(ts)
    ensures exists s: string :: Ordinary(s, ts) && !Matches(s, ts)
  {
    var s := Sample(ts);
    SampleMatches(ts);
    MatchesIsMeant(s, ts);
    SampleRefused(ts);
  }

  // A shortest string for a mask.
  function Sample(ts: seq<Token>): string {
    if ts == [] then ""
    else
      match ts[0]
      case Lit(c) => [c] + Sample(ts[1..])
      case Any => ['a'] + Sample(ts[1..])
      case Star => Sample(ts[1..])
  }

  lemma {:induction false} SampleMatches(ts: seq<Token>)
    ensures Ordinary(Sample(ts), ts)
  {
    if ts != [] {
      SampleMatches(ts[1..]);
      assert Sample(ts) != "" ==> Sample(ts)[1..] == Sample(ts)[1..];
    }
  }

  // How many characters a mask asks for.
  function Demand(ts: seq<Token>): nat {
    if ts == [] then 0 else (if ts[0].Star? then 0 else 1) + Demand(ts[1..])
  }

  lemma {:induction false} OrdinaryDemands(s: string, ts: seq<Token>)
    requires Ordinary(s, ts)
    ensures |s| >= Demand(ts)
    decreases |s| + |ts|
  {
    if ts != [] {
      if ts[0].Star? {
        if Ordinary(s, ts[1..]) {
          OrdinaryDemands(s, ts[1..]);
        } else {
          OrdinaryDemands(s[1..], ts);
        }
      } else {
        OrdinaryDemands(s[1..], ts[1..]);
      }
    }
  }

  lemma {:induction false} SampleRefused(ts: seq<Token>)
    requires EndsInStar(ts)
    ensures !Decides(Sample(ts), Meant(ts))
  {
    MeantDemands(ts);
    SampleLength(ts);
    if Decides(Sample(ts), Meant(ts)) {
      OrdinaryDemands(Sample(ts), Meant(ts).ts);
    }
  }

  lemma {:induction false} SampleLength(ts: seq<Token>)
    ensures |Sample(ts)| == Demand(ts)
  {
    if ts != [] {
      SampleLength(ts[1..]);
    }
  }

  lemma {:induction false} MeantDemands(ts: seq<Token>)
    requires EndsInStar(ts)
    ensures Meant(ts).Mask? ==> Demand(Meant(ts).ts) == Demand(ts) + 1
    decreases |ts|
  {
    if ts == [Star] {
      assert Demand([Any, Star]) == 1 + Demand([Star]) by { assert [Any, Star][1..] == [Star]; }
      assert Demand(ts[1..]) == 0;
    } else if !AllStars(ts) {
      assert |ts| > 1;
      MeantDemands(ts[1..]);
      if Meant(ts[1..]).Mask? {
        var r := Meant(ts[1..]).ts;
        assert ([ts[0]] + r)[1..] == r;
      }
    }
  }

  // ---------------------------------------------------------------------------
  // The procedure
  // ---------------------------------------------------------------------------

  lemma TokensStep(mask: string)
    requires mask != ""
    ensures mask[0] == '\\' && |mask| > 1 ==> Tokens(mask) == [Lit(mask[1])] + Tokens(mask[2..])
    ensures mask[0] == '\\' && |mask| == 1 ==> Tokens(mask) == [Lit('\\')]
    ensures mask[0] == '?' ==> Tokens(mask) == [Any] + Tokens(mask[1..])
    ensures mask[0] == '*' ==> Tokens(mask) == [Star] + Tokens(mask[1..])
    ensures mask[0] != '\\' && mask[0] != '?' && mask[0] != '*' ==> Tokens(mask) == [Lit(mask[0])] + Tokens(mask[1..])
  {
  }

  // A rest whose first character differs from the one the mask asks for cannot match.
  lemma SkipAhead(s: string, mask: string)
    requires s != ""
            && (mask == "" || (mask[0] != '\\' && mask[0] != '?' && mask[0] != '*' && Upper(s[0]) != Upper(mask[0])))
    ensures !Matches(s, Tokens(mask))
  {
    if mask != "" {
      TokensStep(mask);
    }
  }

  // The skip-ahead loop with recursion; the strings are without their closing NUL.
  method StrCaseMask(str: string, mask: string) returns (matched: bool)
    ensures matched == Matches(str, Tokens(mask))
    decreases |mask|, 0
  {
    hide Matches, Upper;
    var s, m := 0, 0;
    while s < |str|
      invariant s <= |str| && m <= |mask|
      invariant Matches(str[s..], Tokens(mask[m..])) == Matches(str, Tokens(mask))
      decreases |mask| - m
    {
      ghost var u, v := str[s..], mask[m..];
      MatchStep(u, v);
      if m == |mask| {
        return false;
      }
      var c := mask[m];
      m := m + 1;
      if c == '\\' {
        if m < |mask| {
          if Upper(mask[m]) != Upper(str[s]) {
            return false;
          }
          m, s := m + 1, s + 1;
          assert str[s..] == u[1..] && mask[m..] == v[2..];
        } else {
          return str[s] == '\\' && s + 1 == |str|;
        }
      } else if c == '?' {
        s := s + 1;
        assert str[s..] == u[1..] && mask[m..] == v[1..];
      } else if c == '*' {
        if m == |mask| {
          return true;
        }
        matched := TryRests(str[s..], mask[m..]);
        return;
      } else {
        if Upper(c) != Upper(str[s]) {
          return false;
        }
        s := s + 1;
        assert str[s..] == u[1..] && mask[m..] == v[1..];
      }
    }
    EmptyRest(mask[m..]);
    matched := m == |mask|;
  }

  // The do loop behind a star
  method TryRests(str: string, mask: string) returns (matched: bool)
    requires str != "" && mask != ""
    ensures matched == SomeRest(str, SkipStars(Tokens(mask)))
    decreases |mask|, 1
  {
    hide Matches, Tokens;
    var m := SkipStarsIn(mask);
    var s := 0;
    while s < |str|
      invariant s <= |str|
      invariant SomeRest(str[s..], Tokens(mask[m..])) == SomeRest(str, SkipStars(Tokens(mask)))
    {
      if m == |mask| || (mask[m] != '\\' && mask[m] != '?') {
        while s < |str| && (m == |mask| || Upper(str[s]) != Upper(mask[m]))
          invariant s <= |str|
          invariant SomeRest(str[s..], Tokens(mask[m..])) == SomeRest(str, SkipStars(Tokens(mask)))
        {
          SkipAhead(str[s..], mask[m..]);
          assert str[s..][1..] == str[s + 1..];
          s := s + 1;
        }
      }
      if s < |str| {
        var ok := StrCaseMask(str[s..], mask[m..]);
        if ok {
          return true;
        }
        assert str[s..][1..] == str[s + 1..];
        s := s + 1;
      }
    }
    matched := false;
  }

  method SkipStarsIn(mask: string) returns (m: nat)
    ensures m <= |mask| && (m < |mask| ==> mask[m] != '*')
    ensures Tokens(mask[m..]) == SkipStars(Tokens(mask))
  {
    m := 0;
    while m < |mask| && mask[m] == '*'
      invariant m <= |mask|
      invariant SkipStars(Tokens(mask[m..])) == SkipStars(Tokens(mask))
    {
      TokensStep(mask[m..]);
      assert mask[m..][1..] == mask[m + 1..];
      m := m + 1;
    }
    if m < |mask| {
      TokensStep(mask[m..]);
    }
  }

  lemma EmptyRest(mask: string)
    ensures Matches("", Tokens(mask)) == (mask == "")
  {
  }

  // One turn of the main loop
  lemma MatchStep(s: string, mask: string)
    requires s != ""
    ensures mask == "" ==> !Matches(s, Tokens(mask))
    ensures mask != "" && mask[0] == '\\' && |mask| > 1 ==>
              Matches(s, Tokens(mask)) == (Upper(mask[1]) == Upper(s[0]) && Matches(s[1..], Tokens(mask[2..])))
    ensures mask != "" && mask[0] == '\\' && |mask| == 1 ==> Matches(s, Tokens(mask)) == (s == "\\")
    ensures mask != "" && mask[0] == '?' ==> Matches(s, Tokens(mask)) == Matches(s[1..], Tokens(mask[1..]))
    ensures mask != "" && mask[0] == '*' ==>
              Matches(s, Tokens(mask)) == (|mask| == 1 || SomeRest(s, SkipStars(Tokens(mask[1..]))))
    ensures mask != "" && mask[0] != '\\' && mask[0] != '?' && mask[0] != '*' ==>
              Matches(s, Tokens(mask)) == (Upper(mask[0]) == Upper(s[0]) && Matches(s[1..], Tokens(mask[1..])))
  {
    hide SomeRest;
    if mask != "" {
      TokensStep(mask);
      if mask[0] == '\\' && |mask| == 1 {
        assert [Lit('\\')][1..] == [];
      }
    }
  }
}
