// Fields within a field: what add_str has written comes back from the two readings of
// source/bforce/prot_emsi_misc.c exactly for the texts described by Good.
module EmsiNesting {
  import opened Wrappers
  import opened Emsi

  // ---------------------------------------------------------------------------
  // Texts that come back
  // ---------------------------------------------------------------------------

  // C strings
  predicate IsText(s: Text) {
    forall i :: 0 <= i < |s| ==> 0 < s[i] < 256
  }

  // The first byte of s is read as itself.  A backslash is, unless a second one, a byte that
  // cannot be printed, or exactly two hexadecimal digits follow; a byte that cannot be printed
  // is if it has a single digit and no hexadecimal digit follows.
  predicate GoodHead(s: Text)
    requires s != []
  {
    if s[0] == BACKSLASH then
      (|s| > 1 ==> s[1] != BACKSLASH && Printable(s[1])) && HexRun(s[1..]) != 2
    else if !Printable(s[0]) then s[0] < 10 && (|s| > 1 ==> !IsHex(s[1]))
    else true
  }

  predicate Good(s: Text) {
    s == [] || (GoodHead(s) && Good(s[1..]))
  }

  predicate AllGood(fs: seq<Text>) {
    forall i :: 0 <= i < |fs| ==> Good(fs[i])
  }

  // What may follow a text without changing how its end is read.
  predicate Follows(s: Text, more: Text) {
    more == [] || (!IsHex(more[0]) && (more[0] == BACKSLASH ==> s == [] || s[|s| - 1] != BACKSLASH))
  }

  lemma {:induction false} EscapedFirst(s: Text)
    requires s != []
    ensures Escaped(s) == Written(s[0]) + Escaped(s[1..])
  {
    hide Written;
    var n := |s| - 1;
    if n == 0 {
      assert s[..0] == [] && s[1..] == [];
    } else {
      var mid := Escaped(s[1..][..n - 1]);
      EscapedFirst(s[..n]);
      assert s[..n][1..] == s[1..][..n - 1];
      assert Escaped(s) == (Written(s[0]) + mid) + Written(s[n]);
      assert Escaped(s[1..]) == mid + Written(s[n]);
    }
  }

  // ] is still doubled after the outer reading.
  function Halved(s: Text): Text {
    if s == [] then [] else (if s[0] == CLOSE_SQUARE then [s[0], s[0]] else [s[0]]) + Halved(s[1..])
  }

  // ---------------------------------------------------------------------------
  // Runs of hexadecimal digits
  // ---------------------------------------------------------------------------

  lemma RunFirst(c: Octet, rest: Text)
    ensures HexRun([c] + rest) == if IsHex(c) then 1 + HexRun(rest) else 0
  {
    hide IsHex;
    assert ([c] + rest)[1..] == rest;
  }

  // They are written as they are,
  lemma {:induction false} RunWritten(s: Text, more: Text)
    requires IsText(s) && (more == [] || !IsHex(more[0]))
    ensures HexRun(Escaped(s) + more) == HexRun(s)
  {
    hide Escaped;
    if s == [] {
      NothingEscaped();
      assert Escaped(s) + more == more;
    } else {
      EscapedFirst(s);
      var tail := Escaped(s[1..]) + more;
      assert Escaped(s) + more == [Written(s[0])[0]] + (Written(s[0])[1..] + tail);
      RunFirst(Written(s[0])[0], Written(s[0])[1..] + tail);
      if IsHex(s[0]) {
        assert Written(s[0])[1..] + tail == tail;
        RunWritten(s[1..], more);
      }
    }
  }

  // and left as they are by the outer reading.
  lemma {:induction false} RunHalved(s: Text, more: Text)
    requires more == [] || !IsHex(more[0])
    ensures HexRun(Halved(s) + more) == HexRun(s)
  {
    hide Halved;
    if s == [] {
      NothingHalved();
      assert Halved(s) + more == more;
    } else {
      var tail := Halved(s[1..]) + more;
      HalvedFirst(s);
      HalvedByte(s[0]);
      assert Halved(s) + more == [s[0]] + (Halved([s[0]])[1..] + tail);
      RunFirst(s[0], Halved([s[0]])[1..] + tail);
      if IsHex(s[0]) {
        assert Halved([s[0]])[1..] + tail == tail;
        RunHalved(s[1..], more);
      }
    }
  }

  // ---------------------------------------------------------------------------
  // Good texts come back
  // ---------------------------------------------------------------------------

  // One turn of the loop of get_field
  lemma Turn(s: Text, to: Octet, text: Text, rest: Text)
    requires |rest| < |s| && Next(s, to) == Piece(text, |s| - |rest|) && s[|s| - |rest|..] == rest
    ensures Scan(s, to) == Prefixed(text, Scan(rest, to))
  {
    hide Next, Prefixed;
    ScanStep(s, to);
  }

  // A pair of closing characters is one; a single one ends the field.
  lemma ScanPair(rest: Text, to: Octet)
    ensures Scan([to, to] + rest, to) == Prefixed([to], Scan(rest, to))
  {
    Turn([to, to] + rest, to, [to], rest);
  }

  lemma ScanClose(rest: Text, to: Octet)
    requires rest == [] || rest[0] != to
    ensures Scan([to] + rest, to) == Some(Field([], rest))
  {
    assert ([to] + rest)[1..] == rest;
  }

  // A character that stands for itself
  lemma ScanPlain(c: Octet, rest: Text, to: Octet)
    requires c != to
    requires c == BACKSLASH ==> (rest == [] || rest[0] != BACKSLASH) && HexRun(rest) != 2
    ensures Scan([c] + rest, to) == Prefixed([c], Scan(rest, to))
  {
    assert ([c] + rest)[1..] == rest;
    Turn([c] + rest, to, [c], rest);
  }

  // A backslash and two hexadecimal digits
  function Named(a: Octet, b: Octet): Octet
    requires IsHex(a) && IsHex(b)
  {
    16 * HexValue(a) + HexValue(b)
  }

  function Yield(v: Octet): Text {
    if v == CLOSE_SQUARE then [v, v] else [v]
  }

  lemma ScanHex(a: Octet, b: Octet, rest: Text, to: Octet)
    requires to != BACKSLASH && IsHex(a) && IsHex(b) && (rest == [] || !IsHex(rest[0]))
    ensures Scan([BACKSLASH, a, b] + rest, to) == Prefixed(Yield(Named(a, b)), Scan(rest, to))
  {
    var s := [BACKSLASH, a, b] + rest;
    RunFirst(b, rest);
    RunFirst(a, [b] + rest);
    assert s[1..] == [a] + ([b] + rest) && s[3..] == rest;
    assert a != BACKSLASH;
    Turn(s, to, Yield(Named(a, b)), rest);
  }

  predicate Level(to: Octet) {
    to == CLOSE_SQUARE || to == CLOSE_BRACE
  }

  // What the outer reading makes of the written form of a byte read as itself
  lemma OuterHead(s: Text, more: Text)
    requires IsText(s) && s != [] && GoodHead(s) && Follows(s, more)
    ensures Scan(Escaped(s) + more, CLOSE_BRACE)
         == Prefixed(Halved([s[0]]), Scan(Escaped(s[1..]) + more, CLOSE_BRACE))
  {
    hide Scan, Prefixed, Escaped, HexRun;
    var c := s[0];
    var tail := Escaped(s[1..]) + more;
    EscapedFirst(s);
    assert Escaped(s) + more == Written(c) + tail;
    assert Halved([c]) == if c == CLOSE_SQUARE then [c, c] else [c] by { assert Halved([]) == []; }
    if c == CLOSE_BRACE {
      ScanPair(tail, c);
    } else if c == CLOSE_SQUARE {
      assert [c, c] + tail == [c] + ([c] + tail);
      ScanPlain(c, tail, CLOSE_BRACE);
      ScanPlain(c, [c] + tail, CLOSE_BRACE);
      PrefixedTwice([c], [c], Scan(tail, CLOSE_BRACE));
      assert [c] + [c] == [c, c];
    } else {
      TailHead(s, more);
      RunWritten(s[1..], more);
      if Printable(c) {
        ScanPlain(c, tail, CLOSE_BRACE);
      } else {
        ScanHex(48, 48 + c, tail, CLOSE_BRACE);
      }
    }
  }

  // The first character behind the written form of s[0]
  lemma TailHead(s: Text, more: Text)
    requires IsText(s) && s != []
    ensures var tail := Escaped(s[1..]) + more;
            if |s| == 1 then tail == more
            else tail != [] && tail[0] == if Printable(s[1]) then s[1] else BACKSLASH
  {
    hide Escaped;
    if |s| == 1 {
      NothingEscaped();
      assert Escaped(s[1..]) + more == more;
    } else {
      EscapedFirst(s[1..]);
    }
  }

  lemma FollowsRest(s: Text, more: Text)
    requires s != [] && Follows(s, more)
    ensures Follows(s[1..], more)
  {
  }

  lemma HalvedByte(c: Octet)
    ensures Halved([c]) == if c == CLOSE_SQUARE then [c, c] else [c]
  {
    NothingHalved();
    assert [c][1..] == [];
  }

  lemma HalvedFirst(s: Text)
    requires s != []
    ensures Halved(s) == Halved([s[0]]) + Halved(s[1..])
  {
    assert Halved([]) == [];
    assert [s[0]][1..] == [];
  }

  lemma {:induction false} OuterReads(s: Text, more: Text)
    requires IsText(s) && Good(s) && Follows(s, more)
    ensures Scan(Escaped(s) + more, CLOSE_BRACE) == Prefixed(Halved(s), Scan(more, CLOSE_BRACE))
    decreases |s|
  {
    hide Scan, Prefixed, Escaped, Halved, GoodHead, Follows;
    if s == [] {
      NothingEscaped();
      assert Escaped(s) + more == more;
      PrefixedTwice([], [], Scan(more, CLOSE_BRACE));
      assert Halved([]) == [] by { NothingHalved(); }
    } else {
      OuterHead(s, more);
      FollowsRest(s, more);
      OuterReads(s[1..], more);
      HalvedFirst(s);
      PrefixedTwice(Halved([s[0]]), Halved(s[1..]), Scan(more, CLOSE_BRACE));
    }
  }

  lemma NothingHalved()
    ensures Halved([]) == []
  {
  }

  // The inner reading of what the outer one has left
  lemma InnerHead(s: Text, more: Text)
    requires s != [] && GoodHead(s) && Follows(s, more)
    ensures Scan(Halved(s) + more, CLOSE_SQUARE) == Prefixed([s[0]], Scan(Halved(s[1..]) + more, CLOSE_SQUARE))
  {
    hide Scan, Prefixed, HexRun;
    var c := s[0];
    var tail := Halved(s[1..]) + more;
    if c == CLOSE_SQUARE {
      assert Halved(s) + more == [c, c] + tail;
      ScanPair(tail, CLOSE_SQUARE);
    } else {
      assert Halved(s) + more == [c] + tail;
      RunHalved(s[1..], more);
      assert |s| > 1 ==> tail[0] == s[1];
      assert |s| == 1 ==> tail == more;
      ScanPlain(c, tail, CLOSE_SQUARE);
    }
  }

  lemma {:induction false} InnerReads(s: Text, more: Text)
    requires Good(s) && Follows(s, more)
    ensures Scan(Halved(s) + more, CLOSE_SQUARE) == Prefixed(s, Scan(more, CLOSE_SQUARE))
    decreases |s|
  {
    hide Scan, Prefixed, Halved, GoodHead, Follows;
    var f := Scan(more, CLOSE_SQUARE);
    if s == [] {
      NothingHalved();
      assert Halved(s) + more == more;
      PrefixedTwice([], [], f);
    } else {
      InnerHead(s, more);
      FollowsRest(s, more);
      InnerReads(s[1..], more);
      PrefixedTwice([s[0]], s[1..], f);
      assert [s[0]] + s[1..] == s;
    }
  }

  // ---------------------------------------------------------------------------
  // Weights: what no reading can add
  // ---------------------------------------------------------------------------

  function Weight(c: Octet): nat {
    if c == BACKSLASH || !Printable(c) then 2 else if c == 67 || c == 99 then 1 else 0
  }

  function Total(s: Text): nat {
    if s == [] then 0 else Weight(s[0]) + Total(s[1..])
  }

  lemma {:induction false} TotalConcat(a: Text, b: Text)
    ensures Total(a + b) == Total(a) + Total(b)
  {
    hide Weight;
    if a == [] {
      assert a + b == b;
    } else {
      assert (a + b)[1..] == a[1..] + b;
      TotalConcat(a[1..], b);
    }
  }

  lemma TotalSmall(a: Octet, b: Octet, c: Octet)
    ensures Total([]) == 0 && Total([a]) == Weight(a) && Total([a, b]) == Weight(a) + Weight(b)
    ensures Total([a, b, c]) == Weight(a) + Weight(b) + Weight(c)
  {
    hide Weight;
    assert [a][1..] == [] && [b][1..] == [] && [c][1..] == [];
    assert [a, b][1..] == [b] && [a, b, c][1..] == [b, c] && [b, c][1..] == [c];
    assert Total([c]) == Weight(c) && Total([b, c]) == Weight(b) + Weight(c);
  }

  lemma {:induction false} TotalEscaped(s: Text)
    requires IsText(s)
    ensures Total(Escaped(s)) == Total(s)
  {
    hide Escaped, Weight;
    if s == [] {
      NothingEscaped();
    } else {
      EscapedFirst(s);
      TotalConcat(Written(s[0]), Escaped(s[1..]));
      TotalEscaped(s[1..]);
      WrittenWeighs(s[0]);
    }
  }

  lemma WrittenWeighs(c: Octet)
    requires 0 < c < 256
    ensures Total(Written(c)) == Weight(c)
  {
    var w := Written(c);
    TotalSmall(w[0], if |w| > 1 then w[1] else 0, if |w| > 2 then w[2] else 0);
    assert |w| == 1 ==> w == [w[0]];
    assert |w| == 2 ==> w == [w[0], w[1]];
    assert |w| == 3 ==> w == [w[0], w[1], w[2]];
  }

  // A pair of backslashes, or two digits that name something printable
  predicate Lossy(s: Text) {
    && |s| > 1 && s[0] == BACKSLASH
    && (s[1] == BACKSLASH
        || (HexRun(s[1..]) == 2 && (HexRunIsHex(s[1..]); Printable(Named(s[1], s[2])))))
  }

  lemma HexWeighs(a: Octet, b: Octet)
    requires IsHex(a) && IsHex(b)
    ensures Total(Yield(Named(a, b))) <= 2
    ensures Printable(Named(a, b)) ==> Total(Yield(Named(a, b))) < 2 + Weight(a) + Weight(b)
  {
    var v := Named(a, b);
    TotalSmall(v, v, 0);
    assert v == BACKSLASH ==> b == 67 || b == 99;
  }

  lemma NextWeighs(s: Text, to: Octet)
    requires s != [] && Level(to) && Next(s, to).Piece?
    ensures var p := Next(s, to);
            && Total(p.text) <= Total(s[..p.taken])
            && (Lossy(s) ==> Total(p.text) < Total(s[..p.taken]))
  {
    hide Weight, HexRun;
    var p := Next(s, to);
    TotalSmall(s[0], if |s| > 1 then s[1] else 0, if |s| > 2 then s[2] else 0);
    assert p.taken == 1 ==> s[..1] == [s[0]];
    assert p.taken == 2 ==> s[..2] == [s[0], s[1]];
    if p.taken == 3 {
      assert s[..3] == [s[0], s[1], s[2]];
      HexRunIsHex(s[1..]);
      HexWeighs(s[1], s[2]);
    }
    BracketsWeigh(to);
  }

  lemma BracketsWeigh(to: Octet)
    requires Level(to)
    ensures Weight(to) == 0 && Weight(BACKSLASH) == 2 && Weight(OPEN_SQUARE) == 0 && Weight(CLOSE_SQUARE) == 0
    ensures Weight(CLOSE_BRACE) == 0
  {
  }

  lemma {:induction false} ScanWeighs(s: Text, to: Octet)
    requires Level(to) && Scan(s, to).Some?
    ensures var f := Scan(s, to).value;
            Total(f.text) + Total(f.rest) <= Total(s) && (Lossy(s) ==> Total(f.text) + Total(f.rest) < Total(s))
    decreases |s|
  {
    hide Next, Weight, Lossy, Total;
    var f := Scan(s, to).value;
    ScanStep(s, to);
    if Next(s, to).Close? {
      assert s == [s[0]] + s[1..];
      TotalConcat([s[0]], s[1..]);
      TotalSmall(s[0], 0, 0);
      CloseIsPlain(s, to);
    } else {
      var p := Next(s, to);
      ScanWeighs(s[p.taken..], to);
      NextWeighs(s, to);
      assert s == s[..p.taken] + s[p.taken..];
      TotalConcat(s[..p.taken], s[p.taken..]);
      TotalConcat(p.text, Scan(s[p.taken..], to).value.text);
    }
  }

  lemma CloseIsPlain(s: Text, to: Octet)
    requires s != [] && Level(to) && Next(s, to).Close?
    ensures !Lossy(s) && Weight(s[0]) == 0
  {
  }

  lemma {:induction false} TotalHalved(s: Text)
    ensures Total(Halved(s)) == Total(s)
  {
    if s != [] {
      TotalHalved(s[1..]);
      var first := if s[0] == CLOSE_SQUARE then [s[0], s[0]] else [s[0]];
      TotalConcat(first, Halved(s[1..]));
      TotalSmall(s[0], s[0], 0);
    }
  }

  // ---------------------------------------------------------------------------
  // Other texts do not come back
  // ---------------------------------------------------------------------------

  // Where a text goes wrong
  lemma {:induction false} FirstBad(s: Text) returns (k: nat)
    requires !Good(s)
    ensures k < |s| && Good(s[..k]) && !GoodHead(s[k..])
    ensures s[k] == BACKSLASH || !Printable(s[k])
    ensures k > 0 ==> s[k - 1] != BACKSLASH
    decreases |s|
  {
    hide HexRun;
    if !GoodHead(s) {
      assert s[..0] == [] && s[0..] == s;
      return 0;
    }
    var l := FirstBad(s[1..]);
    k := l + 1;
    assert s[1..][l..] == s[k..] && s[..k][1..] == s[1..][..l];
    RunCut(s[1..], l);
    assert s[..k][0] == s[0];
  }

  // A run of digits does not reach beyond a character that is none.
  lemma {:induction false} RunCut(s: Text, k: nat)
    requires k < |s| && !IsHex(s[k])
    ensures HexRun(s[..k]) == HexRun(s)
  {
    if k > 0 {
      assert s[..k][1..] == s[1..][..k - 1];
      RunCut(s[1..], k - 1);
    }
  }

  // Three characters that are read as one byte which cannot be printed
  predicate Misread(w: Text, c: Octet) {
    && |w| >= 3 && IsHex(w[1]) && IsHex(w[2])
    && Next(w, CLOSE_BRACE) == Piece([Named(w[1], w[2])], 3) && !Printable(Named(w[1], w[2])) && Named(w[1], w[2]) != c
  }

  // A backslash that is left standing in front of digits
  predicate Undecoded(w: Text) {
    w != [] && w[0] == BACKSLASH && HexRun(w[1..]) > 2
  }

  // The written form of a text that starts badly loses weight, or yields something else than
  // the text's first byte: another byte that cannot be printed, or a backslash.
  lemma BadHead(t: Text, more: Text)
    requires IsText(t) && t != [] && !GoodHead(t) && more != [] && !IsHex(more[0]) && more[0] != BACKSLASH
    ensures var w := Escaped(t) + more;
            w[0] == BACKSLASH && (Lossy(w) || Misread(w, t[0]) || (!Printable(t[0]) && Undecoded(w)))
  {
    hide Escaped, HexRun;
    var c := t[0];
    var w, tail := Escaped(t) + more, Escaped(t[1..]) + more;
    EscapedFirst(t);
    TailHead(t, more);
    RunWritten(t[1..], more);
    assert w == Written(c) + tail;
    if c == BACKSLASH {
      assert w == [c] + tail && w[1..] == tail;
      if tail[0] != BACKSLASH {
        HexRunIsHex(tail);
        HexPiece(w);
      }
    } else {
      var a, b := Written(c)[1], Written(c)[2];
      assert w == [BACKSLASH, a, b] + tail && w[1..] == [a] + ([b] + tail);
      RunFirst(a, [b] + tail);
      RunFirst(b, tail);
      RunStarts(tail);
      if !IsHex(tail[0]) {
        HexPiece(w);
        DecimalIsNotHex(c);
      }
    }
  }

  lemma RunStarts(s: Text)
    ensures HexRun(s) > 0 <==> s != [] && IsHex(s[0])
  {
  }

  lemma HexPiece(w: Text)
    requires |w| >= 3 && w[0] == BACKSLASH && HexRun(w[1..]) == 2
    ensures IsHex(w[1]) && IsHex(w[2]) && Next(w, CLOSE_BRACE) == Piece(Yield(Named(w[1], w[2])), 3)
    ensures Printable(Named(w[1], w[2])) ==> Lossy(w)
  {
    hide HexRun;
    HexRunIsHex(w[1..]);
  }

  // The digits of a byte of two digits or more name another byte.
  lemma DecimalIsNotHex(c: Octet)
    requires 10 <= c < 256
    ensures var d := if c < 100 then c else c / 10; Named(48 + d / 10, 48 + d % 10) != c
  {
  }

  // ---------------------------------------------------------------------------
  // One field
  // ---------------------------------------------------------------------------

  // A text written into a field in braces is read as it is meant to be, ready for the inner
  // reading, exactly if it is good.
  lemma FieldExactly(s: Text, more: Text)
    requires IsText(s) && (more == [] || more[0] != CLOSE_BRACE)
    ensures GetField([OPEN_BRACE] + (Escaped(s) + ([CLOSE_BRACE] + more)), OPEN_BRACE, CLOSE_BRACE)
            == Some(Field(Halved(s), more))
       <==> Good(s)
  {
    hide Scan, Escaped, Halved, Good;
    var close := [CLOSE_BRACE] + more;
    assert ([OPEN_BRACE] + (Escaped(s) + close))[1..] == Escaped(s) + close;
    ScanClose(more, CLOSE_BRACE);
    if Good(s) {
      OuterReads(s, close);
      assert Halved(s) + [] == Halved(s);
    } else if Scan(Escaped(s) + close, CLOSE_BRACE) == Some(Field(Halved(s), more)) {
      assert close[1..] == more;
      BadIsNotRead(s, close, Field(Halved(s), more));
    }
  }

  lemma {:induction false} EscapedConcat(a: Text, b: Text)
    ensures Escaped(a + b) == Escaped(a) + Escaped(b)
  {
    hide Escaped;
    if a == [] {
      NothingEscaped();
      assert a + b == b;
    } else {
      assert (a + b)[1..] == a[1..] + b && (a + b)[0] == a[0];
      EscapedFirst(a + b);
      EscapedFirst(a);
      EscapedConcat(a[1..], b);
    }
  }

  lemma {:induction false} HalvedConcat(a: Text, b: Text)
    ensures Halved(a + b) == Halved(a) + Halved(b)
  {
    if a == [] {
      assert a + b == b;
    } else {
      assert (a + b)[1..] == a[1..] + b;
      HalvedConcat(a[1..], b);
    }
  }

  lemma HalvedHead(s: Text)
    requires s != []
    ensures Halved(s) != [] && Halved(s)[0] == s[0]
  {
  }

  // A bad text is read as it should be up to the bad place.
  lemma ReadsUpTo(s: Text, k: nat, close: Text)
    requires IsText(s) && k < |s| && Good(s[..k]) && (k > 0 ==> s[k - 1] != BACKSLASH)
    requires close != [] && close[0] != BACKSLASH && !IsHex(close[0])
    requires (Escaped(s[k..]) + close)[0] == BACKSLASH
    ensures Scan(Escaped(s) + close, CLOSE_BRACE)
         == Prefixed(Halved(s[..k]), Scan(Escaped(s[k..]) + close, CLOSE_BRACE))
  {
    hide Scan, Prefixed, Escaped, Halved, Good;
    assert s == s[..k] + s[k..];
    EscapedConcat(s[..k], s[k..]);
    assert Escaped(s) + close == Escaped(s[..k]) + (Escaped(s[k..]) + close);
    OuterReads(s[..k], Escaped(s[k..]) + close);
  }

  // What comes first of a text with a bad start
  lemma FirstYield(w: Text, c: Octet)
    requires Scan(w, CLOSE_BRACE).Some? && (Misread(w, c) || (!Printable(c) && Undecoded(w)))
    ensures var z := Scan(w, CLOSE_BRACE).value.text; z != [] && z[0] != c
    ensures var z := Scan(w, CLOSE_BRACE).value.text; !Printable(z[0]) || (z[0] == BACKSLASH && Undecoded(w))
  {
    hide HexRun, Prefixed;
    ScanStep(w, CLOSE_BRACE);
    RunStarts(w[1..]);
    PrefixedSome(Next(w, CLOSE_BRACE).text, Scan(w[Next(w, CLOSE_BRACE).taken..], CLOSE_BRACE));
  }

  // The reading of a bad text up to the bad place, and what is wrong there
  lemma BadIsNotRead(s: Text, close: Text, f: Field)
    requires IsText(s) && !Good(s) && close != [] && close[0] == CLOSE_BRACE && Total(close) == Total(f.rest)
    requires Scan(Escaped(s) + close, CLOSE_BRACE) == Some(f)
    ensures f.text != Halved(s)
  {
    hide Scan, Prefixed, Escaped, Halved, Good, GoodHead, Total, Lossy, Misread, Undecoded, Next;
    var k := FirstBad(s);
    var g, t := s[..k], s[k..];
    assert s == g + t;
    var w := Escaped(t) + close;
    BadHead(t, close);
    ReadsUpTo(s, k, close);
    PrefixedSome(Halved(g), Scan(w, CLOSE_BRACE));
    var z := Scan(w, CLOSE_BRACE).value;
    HalvedConcat(g, t);
    TotalHalved(t);
    TotalEscaped(t);
    TotalConcat(Escaped(t), close);
    ScanWeighs(w, CLOSE_BRACE);
    if f.text == Halved(s) {
      assert z.text == f.text[|Halved(g)|..] == Halved(t);
      HalvedHead(t);
      FirstYield(w, t[0]);
    }
  }

  lemma PrefixedSome(t: Text, f: Option<Field>)
    requires Prefixed(t, f).Some?
    ensures f.Some? && Prefixed(t, f).value == Field(t + f.value.text, f.value.rest)
  {
  }

  // ---------------------------------------------------------------------------
  // Fields within a field
  // ---------------------------------------------------------------------------

  // Fields in square brackets as they are written, and as the outer reading leaves them
  function Packed(fs: seq<Text>): Text {
    if fs == [] then [] else [OPEN_SQUARE] + (Escaped(fs[0]) + ([CLOSE_SQUARE] + Packed(fs[1..])))
  }

  // A field of fields as emsi_createdat writes it
  function Nested(fs: seq<Text>): Text {
    [OPEN_BRACE] + (Packed(fs) + [CLOSE_BRACE])
  }

  // A NUL that a reading has brought forth ends the string.
  function Cut(s: Text): Text {
    if s == [] || s[0] == 0 then [] else [s[0]] + Cut(s[1..])
  }

  // n fields one after the other
  function GetFields(s: Text, n: nat): Option<seq<Text>>
    decreases n
  {
    if n == 0 then Some([])
    else
      match GetField(s, OPEN_SQUARE, CLOSE_SQUARE)
      case None => None
      case Some(f) =>
        match GetFields(f.rest, n - 1)
        case None => None
        case Some(r) => Some([f.text] + r)
  }

  // strnxcpy into a field with room for limit characters
  function Copied(s: Text, limit: nat): Text {
    if |Cut(s)| > limit then Cut(s)[..limit] else Cut(s)
  }

  // Reading n fields inside one, and what is left of the packet
  function ReadNested(s: Text, n: nat, limit: nat): Option<(seq<Text>, Text)> {
    match GetField(s, OPEN_BRACE, CLOSE_BRACE)
    case None => None
    case Some(f) =>
      match GetFields(Cut(f.text), n)
      case None => None
      case Some(r) => Some((seq(|r|, i requires 0 <= i < |r| => Copied(r[i], limit)), f.rest))
  }

  lemma {:induction false} CutText(s: Text, more: Text)
    requires IsText(s)
    ensures Cut(s + more) == s + Cut(more)
  {
    if s == [] {
      assert s + more == more;
    } else {
      assert (s + more)[1..] == s[1..] + more;
      CutText(s[1..], more);
    }
  }

  lemma {:induction false} CutWeighs(s: Text)
    ensures Total(Cut(s)) <= Total(s)
  {
    if s != [] && s[0] != 0 {
      CutWeighs(s[1..]);
      TotalConcat([s[0]], Cut(s[1..]));
      TotalSmall(s[0], 0, 0);
    }
  }

  lemma {:induction false} HalvedIsText(s: Text)
    requires IsText(s)
    ensures IsText(Halved(s))
  {
    if s != [] {
      HalvedIsText(s[1..]);
    }
  }

  // One field at the front: the outer reading, and then the inner one
  lemma OuterFirst(fs: seq<Text>, more: Text)
    requires fs != [] && IsText(fs[0]) && Good(fs[0])
    ensures Scan(Packed(fs) + more, CLOSE_BRACE)
         == Prefixed([OPEN_SQUARE] + (Halved(fs[0]) + [CLOSE_SQUARE]), Scan(Packed(fs[1..]) + more, CLOSE_BRACE))
  {
    hide Scan, Prefixed, Escaped, Halved, Good;
    var s, tail := fs[0], Packed(fs[1..]) + more;
    var close := [CLOSE_SQUARE] + tail;
    var f := Scan(tail, CLOSE_BRACE);
    assert Packed(fs) + more == [OPEN_SQUARE] + (Escaped(s) + close);
    ScanPlain(CLOSE_SQUARE, tail, CLOSE_BRACE);
    OuterReads(s, close);
    ScanPlain(OPEN_SQUARE, Escaped(s) + close, CLOSE_BRACE);
    PrefixedTwice(Halved(s), [CLOSE_SQUARE], f);
    PrefixedTwice([OPEN_SQUARE], Halved(s) + [CLOSE_SQUARE], f);
  }

  lemma InnerFirst(s: Text, tail: Text)
    requires Good(s) && (tail == [] || tail[0] != CLOSE_SQUARE)
    ensures GetField([OPEN_SQUARE] + (Halved(s) + [CLOSE_SQUARE]) + tail, OPEN_SQUARE, CLOSE_SQUARE)
            == Some(Field(s, tail))
  {
    hide Scan, Halved, Good;
    var body := Halved(s) + ([CLOSE_SQUARE] + tail);
    assert ([OPEN_SQUARE] + (Halved(s) + [CLOSE_SQUARE]) + tail)[1..] == body;
    InnerReads(s, [CLOSE_SQUARE] + tail);
    ScanClose(tail, CLOSE_SQUARE);
    assert s + [] == s;
  }

  function Opened(fs: seq<Text>): Text {
    if fs == [] then [] else [OPEN_SQUARE] + (Halved(fs[0]) + [CLOSE_SQUARE]) + Opened(fs[1..])
  }

  predicate AllTexts(fs: seq<Text>) {
    forall i :: 0 <= i < |fs| ==> IsText(fs[i])
  }

  lemma {:induction false} OuterReadsAll(fs: seq<Text>, more: Text)
    requires AllTexts(fs) && AllGood(fs)
    ensures Scan(Packed(fs) + more, CLOSE_BRACE) == Prefixed(Opened(fs), Scan(more, CLOSE_BRACE))
    decreases |fs|
  {
    hide Scan, Prefixed, Halved, Good, IsText;
    if fs == [] {
      assert Packed(fs) + more == more;
      PrefixedTwice([], [], Scan(more, CLOSE_BRACE));
    } else {
      OuterFirst(fs, more);
      OuterReadsAll(fs[1..], more);
      PrefixedTwice([OPEN_SQUARE] + (Halved(fs[0]) + [CLOSE_SQUARE]), Opened(fs[1..]), Scan(more, CLOSE_BRACE));
    }
  }

  lemma {:induction false} InnerReadsAll(fs: seq<Text>)
    requires AllTexts(fs) && AllGood(fs)
    ensures IsText(Opened(fs)) && GetFields(Opened(fs), |fs|) == Some(fs)
    decreases |fs|
  {
    hide Scan, Halved, Good, GetField;
    if fs != [] {
      HalvedIsText(fs[0]);
      InnerReadsAll(fs[1..]);
      InnerFirst(fs[0], Opened(fs[1..]));
      assert [fs[0]] + fs[1..] == fs;
    }
  }

  // ---------------------------------------------------------------------------
  // And only good texts survive both readings
  // ---------------------------------------------------------------------------

  function TotalAll(fs: seq<Text>): nat {
    if fs == [] then 0 else Total(fs[0]) + TotalAll(fs[1..])
  }

  lemma {:induction false} TotalPacked(fs: seq<Text>)
    requires AllTexts(fs)
    ensures Total(Packed(fs)) == TotalAll(fs)
  {
    hide Escaped, Total, Weight;
    TotalSmall(0, 0, 0);
    if fs != [] {
      var rest := [CLOSE_SQUARE] + Packed(fs[1..]);
      TotalPacked(fs[1..]);
      TotalEscaped(fs[0]);
      TotalConcat([CLOSE_SQUARE], Packed(fs[1..]));
      TotalConcat(Escaped(fs[0]), rest);
      TotalConcat([OPEN_SQUARE], Escaped(fs[0]) + rest);
      TotalSmall(OPEN_SQUARE, 0, 0);
      TotalSmall(CLOSE_SQUARE, 0, 0);
      BracketsWeigh(CLOSE_SQUARE);
    }
  }

  lemma {:induction false} FieldsWeigh(s: Text, n: nat)
    requires GetFields(s, n).Some?
    ensures |GetFields(s, n).value| == n && TotalAll(GetFields(s, n).value) <= Total(s)
    decreases n
  {
    hide Scan, Total;
    if n > 0 {
      var f := GetField(s, OPEN_SQUARE, CLOSE_SQUARE).value;
      FieldsWeigh(f.rest, n - 1);
      ScanWeighs(s[1..], CLOSE_SQUARE);
      assert s == [s[0]] + s[1..];
      TotalConcat([s[0]], s[1..]);
    }
  }

  // The fields that carry any weight have come back.
  predicate Back(r: seq<Text>, fs: seq<Text>, limit: nat) {
    |r| == |fs| && forall i :: 0 <= i < |fs| && Total(fs[i]) > 0 ==> Copied(r[i], limit) == fs[i]
  }

  lemma CopiedWeighs(s: Text, limit: nat)
    ensures Total(Copied(s, limit)) <= Total(s)
  {
    hide Total;
    CutWeighs(s);
    var c := Cut(s);
    if |c| > limit {
      assert c == c[..limit] + c[limit..];
      TotalConcat(c[..limit], c[limit..]);
    }
  }

  lemma {:induction false} BackWeighs(r: seq<Text>, fs: seq<Text>, limit: nat)
    requires Back(r, fs, limit)
    ensures TotalAll(fs) <= TotalAll(r)
  {
    hide Total, Copied;
    if fs != [] {
      BackWeighs(r[1..], fs[1..], limit);
      CopiedWeighs(r[0], limit);
    }
  }

  // Digits stay, for both readings.
  lemma {:induction false} RunPasses(s: Text)
    requires Scan(s, CLOSE_BRACE).Some?
    ensures HexRun(Scan(s, CLOSE_BRACE).value.text) >= HexRun(s)
    decreases |s|
  {
    hide Prefixed;
    if s != [] && IsHex(s[0]) {
      ScanStep(s, CLOSE_BRACE);
      PrefixedSome([s[0]], Scan(s[1..], CLOSE_BRACE));
      RunPasses(s[1..]);
      RunFirst(s[0], Scan(s[1..], CLOSE_BRACE).value.text);
    }
  }

  lemma {:induction false} RunStays(s: Text)
    ensures HexRun(Cut(s)) == HexRun(s)
  {
    if s != [] && s[0] != 0 {
      RunStays(s[1..]);
    }
  }

  // What the inner reading makes of a text that has started badly
  lemma InnerYield(w: Text, c: Octet)
    requires Scan(w, CLOSE_BRACE).Some? && (Misread(w, c) || (!Printable(c) && Undecoded(w)))
    ensures var z := Cut(Scan(w, CLOSE_BRACE).value.text);
            && (z != [] ==> !IsHex(z[0]))
            && (Scan(z, CLOSE_SQUARE).Some? ==>
                  var y := Scan(z, CLOSE_SQUARE).value.text; y != [] && y[0] != c)
  {
    hide Scan, Prefixed, HexRun, Misread;
    FirstYield(w, c);
    var text := Scan(w, CLOSE_BRACE).value.text;
    var z := Cut(text);
    if Scan(z, CLOSE_SQUARE).Some? {
      assert Scan([], CLOSE_SQUARE) == None by { NothingClosed(CLOSE_SQUARE); }
      if z[0] == BACKSLASH {
        ScanStep(w, CLOSE_BRACE);
        RunStarts(w[1..]);
        PrefixedSome([BACKSLASH], Scan(w[1..], CLOSE_BRACE));
        RunPasses(w[1..]);
        assert text[1..] == Scan(w[1..], CLOSE_BRACE).value.text;
        RunStays(text[1..]);
        RunStarts(z[1..]);
      }
      ScanStep(z, CLOSE_SQUARE);
      PrefixedSome([z[0]], Scan(z[1..], CLOSE_SQUARE));
    }
  }

  predicate Fit(fs: seq<Text>, limit: nat) {
    forall i :: 0 <= i < |fs| ==> |fs[i]| <= limit
  }

  // A first field that is bad: what its outer reading yields, weighed against all the rest
  lemma BadField(fs: seq<Text>, close: Text, f: Field) returns (k: nat)
    requires fs != [] && AllTexts(fs) && !Good(fs[0])
    requires close != [] && close[0] == CLOSE_BRACE && Scan(Packed(fs) + close, CLOSE_BRACE) == Some(f)
    ensures k < |fs[0]| && Good(fs[0][..k]) && (k > 0 ==> fs[0][k - 1] != BACKSLASH)
    ensures fs[0][k] == BACKSLASH || !Printable(fs[0][k])
    ensures var w := Escaped(fs[0][k..]) + ([CLOSE_SQUARE] + (Packed(fs[1..]) + close));
            && w[0] == BACKSLASH && Scan(w, CLOSE_BRACE).Some?
            && f == Field([OPEN_SQUARE] + (Halved(fs[0][..k]) + Scan(w, CLOSE_BRACE).value.text),
                Scan(w, CLOSE_BRACE).value.rest)
            && (Misread(w, fs[0][k]) || (!Printable(fs[0][k]) && Undecoded(w))
                || Total(f.text) + Total(f.rest) < TotalAll(fs) + Total(close))
  {
    hide Scan, Prefixed, Escaped, Halved, Good, GoodHead, Total, Lossy, Misread, Undecoded, IsText;
    var s := fs[0];
    k := FirstBad(s);
    var g, t := s[..k], s[k..];
    var after := Packed(fs[1..]) + close;
    var w := Escaped(t) + ([CLOSE_SQUARE] + after);
    assert Packed(fs) + close == [OPEN_SQUARE] + (Escaped(s) + ([CLOSE_SQUARE] + after));
    TextParts(s, k);
    BadHead(t, [CLOSE_SQUARE] + after);
    ReadsUpTo(s, k, [CLOSE_SQUARE] + after);
    ScanPlain(OPEN_SQUARE, Escaped(s) + ([CLOSE_SQUARE] + after), CLOSE_BRACE);
    PrefixedTwice([OPEN_SQUARE], Halved(g), Scan(w, CLOSE_BRACE));
    PrefixedSome([OPEN_SQUARE] + Halved(g), Scan(w, CLOSE_BRACE));
    var z := Scan(w, CLOSE_BRACE).value;
    assert [OPEN_SQUARE] + Halved(g) + z.text == [OPEN_SQUARE] + (Halved(g) + z.text);
    ScanWeighs(w, CLOSE_BRACE);
    BadFieldWeighs(fs, k, close, w);
    TotalConcat([OPEN_SQUARE], Halved(g) + z.text);
    TotalConcat(Halved(g), z.text);
    TotalHalved(g);
    TotalSmall(OPEN_SQUARE, 0, 0);
    BracketsWeigh(CLOSE_SQUARE);
  }

  lemma TextParts(s: Text, k: nat)
    requires IsText(s) && k <= |s|
    ensures s == s[..k] + s[k..] && IsText(s[..k]) && IsText(s[k..])
  {
  }

  lemma BadFieldWeighs(fs: seq<Text>, k: nat, close: Text, w: Text)
    requires fs != [] && AllTexts(fs) && k <= |fs[0]|
    requires w == Escaped(fs[0][k..]) + ([CLOSE_SQUARE] + (Packed(fs[1..]) + close))
    ensures Total(fs[0][..k]) + Total(w) == TotalAll(fs) + Total(close)
  {
    hide Total, Escaped, Weight, Packed;
    var after := Packed(fs[1..]) + close;
    TextParts(fs[0], k);
    TotalConcat(fs[0][..k], fs[0][k..]);
    TotalEscaped(fs[0][k..]);
    TotalConcat(Escaped(fs[0][k..]), [CLOSE_SQUARE] + after);
    TotalConcat([CLOSE_SQUARE], after);
    TotalConcat(Packed(fs[1..]), close);
    TotalPacked(fs[1..]);
    TotalSmall(CLOSE_SQUARE, 0, 0);
    BracketsWeigh(CLOSE_SQUARE);
  }

  // Such a field does not come back.
  lemma BadFieldLost(fs: seq<Text>, close: Text, limit: nat, f: Field, r: seq<Text>)
    requires fs != [] && AllTexts(fs) && !Good(fs[0]) && Fit(fs, limit)
    requires close != [] && close[0] == CLOSE_BRACE && Scan(Packed(fs) + close, CLOSE_BRACE) == Some(f)
    requires Total(f.rest) == Total(close) && GetFields(Cut(f.text), |fs|) == Some(r)
    ensures !Back(r, fs, limit)
  {
    hide Scan, Prefixed, Escaped, Halved, Good, Total, Misread, Undecoded, IsText, Weight, GetFields;
    if Back(r, fs, limit) {
      var k := BadField(fs, close, f);
      var s := fs[0];
      var g := s[..k];
      var w := Escaped(s[k..]) + ([CLOSE_SQUARE] + (Packed(fs[1..]) + close));
      FieldsWeigh(Cut(f.text), |fs|);
      CutWeighs(f.text);
      BackWeighs(r, fs, limit);
      InnerYield(w, s[k]);
      var z := Cut(Scan(w, CLOSE_BRACE).value.text);
      TextParts(s, k);
      HalvedIsText(g);
      assert f.text == [OPEN_SQUARE] + (Halved(g) + Scan(w, CLOSE_BRACE).value.text);
      CutFront(Halved(g), Scan(w, CLOSE_BRACE).value.text);
      InnerReads(g, z);
      FirstOfFields([OPEN_SQUARE] + (Halved(g) + z), |fs|);
      PrefixedSome(g, Scan(z, CLOSE_SQUARE));
      var y := Scan(z, CLOSE_SQUARE).value.text;
      BadIsHeavy(s, k);
      CopyDiffers(s, k, y, limit);
    }
  }

  lemma CopyDiffers(s: Text, k: nat, y: Text, limit: nat)
    requires IsText(s) && k < |s| <= limit && y != [] && y[0] != s[k]
    ensures Copied(s[..k] + y, limit) != s
  {
    hide IsText;
    TextParts(s, k);
    CutText(s[..k], y);
  }

  lemma CutFront(h: Text, rest: Text)
    requires IsText(h)
    ensures Cut([OPEN_SQUARE] + (h + rest)) == [OPEN_SQUARE] + (h + Cut(rest))
  {
    hide Cut;
    CutText([OPEN_SQUARE] + h, rest);
    assert [OPEN_SQUARE] + (h + rest) == [OPEN_SQUARE] + h + rest;
    assert [OPEN_SQUARE] + (h + Cut(rest)) == [OPEN_SQUARE] + h + Cut(rest);
  }

  lemma FirstOfFields(s: Text, n: nat)
    requires n > 0 && s != [] && s[0] == OPEN_SQUARE && GetFields(s, n).Some?
    ensures Scan(s[1..], CLOSE_SQUARE).Some? && GetFields(s, n).value != []
    ensures GetFields(s, n).value[0] == Scan(s[1..], CLOSE_SQUARE).value.text
    ensures GetFields(Scan(s[1..], CLOSE_SQUARE).value.rest, n - 1) == Some(GetFields(s, n).value[1..])
  {
    hide Scan;
  }

  lemma BadIsHeavy(s: Text, k: nat)
    requires k < |s| && (s[k] == BACKSLASH || !Printable(s[k]))
    ensures Total(s) > 0
  {
    hide Total, Weight;
    assert s == s[..k] + ([s[k]] + s[k + 1..]);
    TotalConcat(s[..k], [s[k]] + s[k + 1..]);
    TotalConcat([s[k]], s[k + 1..]);
    TotalSmall(s[k], 0, 0);
    assert Weight(s[k]) == 2 by { BadWeight(s[k]); }
  }

  lemma BadWeight(c: Octet)
    requires c == BACKSLASH || !Printable(c)
    ensures Weight(c) == 2
  {
  }

  lemma {:induction false} OnlyGood(fs: seq<Text>, close: Text, limit: nat, f: Field, r: seq<Text>)
    requires AllTexts(fs) && Fit(fs, limit)
    requires close != [] && close[0] == CLOSE_BRACE && Scan(Packed(fs) + close, CLOSE_BRACE) == Some(f)
    requires close == [CLOSE_BRACE] + close[1..] && (|close| > 1 ==> close[1] != CLOSE_BRACE)
    requires Total(f.rest) == Total(close) && GetFields(Cut(f.text), |fs|) == Some(r) && Back(r, fs, limit)
    ensures AllGood(fs)
    decreases |fs|
  {
    hide Scan, Prefixed, Escaped, Halved, Good, Total, IsText, GetFields, Packed, Copied;
    if fs != [] {
      if !Good(fs[0]) {
        BadFieldLost(fs, close, limit, f, r);
      } else {
        var s := fs[0];
        var front := [OPEN_SQUARE] + (Halved(s) + [CLOSE_SQUARE]);
        OuterFirst(fs, close);
        PrefixedSome(front, Scan(Packed(fs[1..]) + close, CLOSE_BRACE));
        var next := Scan(Packed(fs[1..]) + close, CLOSE_BRACE).value;
        HalvedIsText(s);
        FrontIsText(Halved(s));
        CutText(front, next.text);
        NextOpens(fs[1..], close);
        InnerFirst(s, Cut(next.text));
        FirstOfFields(front + Cut(next.text), |fs|);
        BackRest(r, fs, limit);
        OnlyGood(fs[1..], close, limit, next, r[1..]);
      }
    }
  }

  lemma BackRest(r: seq<Text>, fs: seq<Text>, limit: nat)
    requires Back(r, fs, limit) && fs != []
    ensures Back(r[1..], fs[1..], limit)
  {
    hide Total, Copied;
  }

  lemma FrontIsText(h: Text)
    requires IsText(h)
    ensures IsText([OPEN_SQUARE] + (h + [CLOSE_SQUARE]))
  {
  }

  // Behind a field comes another one, or nothing.
  lemma NextOpens(fs: seq<Text>, close: Text)
    requires close != [] && close[0] == CLOSE_BRACE && (|close| > 1 ==> close[1] != CLOSE_BRACE)
    requires Scan(Packed(fs) + close, CLOSE_BRACE).Some?
    ensures var c := Cut(Scan(Packed(fs) + close, CLOSE_BRACE).value.text); c == [] || c[0] == OPEN_SQUARE
  {
    hide Scan, Escaped, Prefixed;
    if fs == [] {
      assert Packed(fs) + close == [CLOSE_BRACE] + close[1..];
      ScanClose(close[1..], CLOSE_BRACE);
    } else {
      var tail := Escaped(fs[0]) + ([CLOSE_SQUARE] + Packed(fs[1..])) + close;
      assert Packed(fs) + close == [OPEN_SQUARE] + tail;
      ScanPlain(OPEN_SQUARE, tail, CLOSE_BRACE);
      PrefixedSome([OPEN_SQUARE], Scan(tail, CLOSE_BRACE));
    }
  }

  lemma PacketOpens(fs: seq<Text>, more: Text)
    ensures GetField(Nested(fs) + more, OPEN_BRACE, CLOSE_BRACE)
            == Scan(Packed(fs) + ([CLOSE_BRACE] + more), CLOSE_BRACE)
  {
    hide Scan, Packed;
    assert (Nested(fs) + more)[1..] == Packed(fs) + ([CLOSE_BRACE] + more);
  }

  // Good texts come back,
  lemma NestedReads(fs: seq<Text>, more: Text)
    requires AllTexts(fs) && AllGood(fs) && (more == [] || more[0] != CLOSE_BRACE)
    ensures GetField(Nested(fs) + more, OPEN_BRACE, CLOSE_BRACE) == Some(Field(Opened(fs), more))
    ensures GetFields(Cut(Opened(fs)), |fs|) == Some(fs)
  {
    hide Scan, Packed, Prefixed, GetField, GetFields, AllGood, AllTexts, Opened, Cut;
    PacketOpens(fs, more);
    ScanClose(more, CLOSE_BRACE);
    OuterReadsAll(fs, [CLOSE_BRACE] + more);
    InnerReadsAll(fs);
    CutAlone(Opened(fs));
    PrefixedValue(Opened(fs), more);
    assert Opened(fs) + [] == Opened(fs);
  }

  // and nothing else does.
  lemma NestedOnly(fs: seq<Text>, limit: nat, more: Text, f: Field, r: seq<Text>)
    requires AllTexts(fs) && Fit(fs, limit) && (more == [] || more[0] != CLOSE_BRACE)
    requires GetField(Nested(fs) + more, OPEN_BRACE, CLOSE_BRACE) == Some(f) && f.rest == more
    requires GetFields(Cut(f.text), |fs|) == Some(r) && Back(r, fs, limit)
    ensures AllGood(fs)
  {
    hide Scan, Packed, GetField, GetFields, AllGood, AllTexts, Fit, Total, Cut, Back;
    PacketOpens(fs, more);
    CloseWeighs(more);
    assert ([CLOSE_BRACE] + more)[1..] == more;
    OnlyGood(fs, [CLOSE_BRACE] + more, limit, f, r);
  }

  // The main result: a list of texts that fit, written as fields inside a field, is read back
  // if and only if all of them are good; brackets and braces do not matter.
  lemma NestedExactly(fs: seq<Text>, limit: nat, more: Text)
    requires AllTexts(fs) && Fit(fs, limit) && (more == [] || more[0] != CLOSE_BRACE)
    ensures ReadNested(Nested(fs) + more, |fs|, limit) == Some((fs, more)) <==> AllGood(fs)
  {
    hide Scan, Nested, GetField, GetFields, AllGood, AllTexts, Opened, Fit, Total, Cut, Copied;
    if AllGood(fs) {
      NestedReads(fs, more);
      GoodIsCopied(fs, limit);
    } else if ReadNested(Nested(fs) + more, |fs|, limit) == Some((fs, more)) {
      var f := GetField(Nested(fs) + more, OPEN_BRACE, CLOSE_BRACE).value;
      NestedOnly(fs, limit, more, f, GetFields(Cut(f.text), |fs|).value);
    }
  }

  // For a single byte: the printable ones and those of one digit
  lemma ByteExactly(c: Octet, more: Text)
    requires 0 < c < 256 && (more == [] || more[0] != CLOSE_BRACE)
    ensures ReadNested(Nested([[c]]) + more, 1, 1) == Some(([[c]], more)) <==> c < 10 || 32 <= c <= 126
  {
    hide Nested, ReadNested, AllGood;
    NestedExactly([[c]], 1, more);
    GoodByte(c);
  }

  lemma GoodByte(c: Octet)
    requires 0 < c < 256
    ensures AllGood([[c]]) <==> c < 10 || Printable(c)
  {
    assert [c][1..] == [] && Good([]);
    assert AllGood([[c]]) <==> Good([[c]][0]);
  }

  lemma PrefixedValue(t: Text, more: Text)
    ensures Prefixed(t, Some(Field([], more))) == Some(Field(t + [], more))
  {
  }

  lemma CloseWeighs(more: Text)
    ensures Total([CLOSE_BRACE] + more) == Total(more)
  {
    hide Total;
    TotalConcat([CLOSE_BRACE], more);
    TotalSmall(CLOSE_BRACE, 0, 0);
    BracketsWeigh(CLOSE_SQUARE);
  }

  lemma GoodIsCopied(fs: seq<Text>, limit: nat)
    requires AllTexts(fs) && Fit(fs, limit)
    ensures seq(|fs|, i requires 0 <= i < |fs| => Copied(fs[i], limit)) == fs
  {
    hide IsText, Cut;
    forall i | 0 <= i < |fs| ensures Copied(fs[i], limit) == fs[i] {
      CutAlone(fs[i]);
    }
  }

  lemma CutAlone(s: Text)
    requires IsText(s)
    ensures Cut(s) == s
  {
    CutText(s, []);
    assert s + [] == s;
  }
}
