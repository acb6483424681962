// Bracketed fields of EMSI packets, source/bforce/prot_emsi_misc.c: add_str writes them,
// get_field takes them out of the packet in place, one level of brackets inside another.
module Emsi {
  import opened Wrappers

  // unsigned char
  type Octet = int

  type Text = seq<Octet>

  const OPEN_SQUARE: Octet := 91
  const BACKSLASH: Octet := 92
  const CLOSE_SQUARE: Octet := 93
  const OPEN_BRACE: Octet := 123
  const CLOSE_BRACE: Octet := 125

  // ---------------------------------------------------------------------------
  // Writing
  // ---------------------------------------------------------------------------

  predicate Printable(c: Octet) {
    32 <= c <= 126
  }

  // A byte as add_str writes it: ] and } twice; what cannot be printed as a backslash and
  // the first two of its decimal digits.
  function Written(c: Octet): Text {
    if c == CLOSE_SQUARE || c == CLOSE_BRACE then [c, c]
    else if Printable(c) then [c]
    else if c < 100 then [BACKSLASH, 48 + c / 10, 48 + c % 10]
    else [BACKSLASH, 48 + c / 100, 48 + c / 10 % 10]
  }

  function Escaped(s: Text): Text {
    if s == [] then [] else Escaped(s[..|s| - 1]) + Written(s[|s| - 1])
  }

  lemma NothingEscaped()
    ensures Escaped([]) == []
  {
  }

  lemma EscapedLast(s: Text, i: nat)
    requires i < |s|
    ensures Escaped(s[..i + 1]) == Escaped(s[..i]) + Written(s[i])
  {
    assert s[..i + 1][..i] == s[..i];
  }

  method AddStr(source: Text, add: Text) returns (dest: Text)
    ensures dest == source + Escaped(add)
  {
    hide Escaped;
    assert add[..0] == [];
    NothingEscaped();
    dest := source;
    for i := 0 to |add|
      invariant dest == source + Escaped(add[..i])
    {
      EscapedLast(add, i);
      var c := add[i];
      if c == CLOSE_SQUARE || c == CLOSE_BRACE {
        dest := dest + [c];
        dest := dest + [c];
      } else if !Printable(c) {
        dest := dest + [BACKSLASH] + (if c < 100 then [48 + c / 10, 48 + c % 10] else [48 + c / 100, 48 + c / 10 % 10]);
      } else {
        dest := dest + [c];
      }
    }
    assert add[..|add|] == add;
  }

  // ---------------------------------------------------------------------------
  // Reading
  // ---------------------------------------------------------------------------

  predicate IsHex(c: Octet) {
    48 <= c <= 57 || 65 <= c <= 70 || 97 <= c <= 102
  }

  function HexValue(c: Octet): (v: nat)
    requires IsHex(c)
    ensures v < 16
  {
    if c <= 57 then c - 48 else if c <= 70 then c - 55 else c - 87
  }

  const LOWER := "0123456789abcdef"
  const UPPER := "0123456789ABCDEF"

  // The hexadecimal digits and their values
  lemma HexDigitsAre(c: Octet)
    ensures IsHex(c) <==> exists k :: 0 <= k < 16 && (LOWER[k] as int == c || UPPER[k] as int == c)
    ensures forall k :: 0 <= k < 16 && (LOWER[k] as int == c || UPPER[k] as int == c) ==> IsHex(c) && HexValue(c) == k
  {
    if IsHex(c) {
      var k := HexValue(c);
      assert LOWER[k] as int == c || UPPER[k] as int == c;
    }
  }

  function HexRun(s: Text): nat {
    if s != [] && IsHex(s[0]) then 1 + HexRun(s[1..]) else 0
  }

  lemma {:induction false} HexRunIsHex(s: Text)
    requires HexRun(s) >= 2
    ensures |s| >= 2 && IsHex(s[0]) && IsHex(s[1])
  {
    assert HexRun(s[1..]) >= 1;
  }

  datatype Field = Field(text: Text, rest: Text)

  // One character of a field: what it yields and how much of the packet it takes.
  datatype Piece = Close | Piece(text: Text, taken: nat)

  function Next(s: Text, to: Octet): (p: Piece)
    requires s != []
    ensures p.Piece? ==> 1 <= p.taken <= |s| && |p.text| <= p.taken
  {
    if s[0] == to then (if |s| > 1 && s[1] == to then Piece([to], 2) else Close)
    else if s[0] == BACKSLASH then
      if |s| > 1 && s[1] == BACKSLASH then Piece([BACKSLASH], 2)
      else if HexRun(s[1..]) == 2 then
        HexRunIsHex(s[1..]);
        var v := 16 * HexValue(s[1]) + HexValue(s[2]);
        Piece(if v == CLOSE_SQUARE then [v, v] else [v], 3)
      else Piece([BACKSLASH], 1)
    else Piece([s[0]], 1)
  }

  function Scan(s: Text, to: Octet): (f: Option<Field>)
    ensures f.Some? ==> |f.value.text| + |f.value.rest| < |s|
    decreases |s|
  {
    if s == [] then None
    else
      match Next(s, to)
      case Close => Some(Field([], s[1..]))
      case Piece(text, taken) =>
        match Scan(s[taken..], to)
        case None => None
        case Some(f) => Some(Field(text + f.text, f.rest))
  }

  // get_field
  function GetField(s: Text, from: Octet, to: Octet): Option<Field> {
    if s == [] || s[0] != from then None else Scan(s[1..], to)
  }

  function Prefixed(t: Text, f: Option<Field>): Option<Field> {
    match f
    case None => None
    case Some(v) => Some(Field(t + v.text, v.rest))
  }

  lemma PrefixedTwice(a: Text, b: Text, f: Option<Field>)
    ensures Prefixed(a, Prefixed(b, f)) == Prefixed(a + b, f)
    ensures Prefixed([], f) == f
  {
    if f.Some? {
      assert a + (b + f.value.text) == a + b + f.value.text;
      assert [] + f.value.text == f.value.text;
    }
  }

  // ---------------------------------------------------------------------------
  // The procedure
  // ---------------------------------------------------------------------------

  lemma ScanStep(s: Text, to: Octet)
    requires s != []
    ensures Next(s, to).Close? ==> Scan(s, to) == Some(Field([], s[1..]))
    ensures Next(s, to).Piece? ==> Scan(s, to) == Prefixed(Next(s, to).text, Scan(s[Next(s, to).taken..], to))
  {
    hide Next;
  }

  // get_field works in place: the packet is buf[pos..end], closed by a NUL at end; the field
  // moves to the left over its own escapes, and what comes after it stays where it is.
  method TakeField(buf: array<Octet>, pos: nat, end: nat, from: Octet, to: Octet)
    returns (found: bool, start: nat, stop: nat, next: nat)
    requires pos <= end < buf.Length
    modifies buf
    ensures found == GetField(old(buf[pos..end]), from, to).Some?
    ensures found ==> start <= stop < next <= end && buf[stop] == 0
    ensures found ==> GetField(old(buf[pos..end]), from, to) == Some(Field(buf[start..stop], buf[next..end]))
    ensures found ==> buf[next..] == old(buf[next..]) && buf[..pos] == old(buf[..pos])
  {
    hide Scan, Next, Prefixed;
    found, start, stop, next := false, pos, pos, pos;
    if pos == end || buf[pos] != from {
      return;
    }
    assert buf[pos..end][1..] == buf[pos + 1..end];
    found, stop, next := Shift(buf, pos + 1, end, to);
    start := pos + 1;
    if found {
      Before(buf[..], old(buf[..]), pos);
    }
  }

  lemma Before(b: Text, c: Text, pos: nat)
    requires pos + 1 <= |b| == |c| && b[..pos + 1] == c[..pos + 1]
    ensures b[..pos] == c[..pos]
  {
    assert b[..pos] == b[..pos + 1][..pos];
  }

  // The loop over the characters of the field
  method Shift(buf: array<Octet>, start: nat, end: nat, to: Octet) returns (found: bool, stop: nat, next: nat)
    requires start <= end < buf.Length
    modifies buf
    ensures found == Scan(old(buf[start..end]), to).Some?
    ensures found ==> start <= stop < next <= end && buf[stop] == 0
    ensures found ==> Scan(old(buf[start..end]), to) == Some(Field(buf[start..stop], buf[next..end]))
    ensures found ==> buf[next..] == old(buf[next..]) && buf[..start] == old(buf[..start])
  {
    hide Scan, Next, Prefixed;
    found, stop, next := false, start, start;
    ghost var text := buf[start..end];
    ghost var packet := buf[..];
    var dst, src := start, start;
    ghost var done: Text := [];
    PrefixedTwice([], [], Scan(text, to));
    while src < end
      invariant start <= dst <= src <= end
      invariant buf[src..] == packet[src..] && buf[..start] == packet[..start] && buf[start..dst] == done
      invariant Scan(text, to) == Prefixed(done, Scan(packet[src..end], to))
    {
      ghost var rest := packet[src..end];
      Same(buf[..], packet, src, end);
      ScanStep(rest, to);
      var piece := Next(buf[src..end], to);
      if piece == Close {
        CloseHere(done, rest, to);
        ghost var before := buf[..];
        buf[dst] := 0;
        found, stop, next := true, dst, src + 1;
        Closed(before, buf[..], packet, start, dst, src, end);
        return;
      }
      ghost var after := src + piece.taken;
      PrefixedTwice(done, piece.text, Scan(rest[piece.taken..], to));
      assert rest[piece.taken..] == packet[after..end];
      Move(buf, start, dst, src, piece, packet);
      done := done + piece.text;
      dst := dst + |piece.text|;
      src := src + piece.taken;
    }
    NothingClosed(to);
    assert packet[src..end] == [];
  }

  // A piece moves to dst; what is still to be read is not touched.
  method Move(buf: array<Octet>, start: nat, dst: nat, src: nat, piece: Piece, ghost packet: Text)
    requires piece.Piece? && start <= dst <= src && src + piece.taken <= buf.Length == |packet|
            && |piece.text| <= piece.taken
    requires buf[src..] == packet[src..] && buf[..start] == packet[..start]
    modifies buf
    ensures buf[src + piece.taken..] == packet[src + piece.taken..] && buf[..start] == packet[..start]
    ensures buf[start..dst + |piece.text|] == old(buf[start..dst]) + piece.text
  {
    ghost var before := buf[..];
    Put(buf, dst, piece.text);
    Around(before, buf[..], packet, start, dst, piece.text, src, src + piece.taken);
  }

  method Put(buf: array<Octet>, at: nat, t: Text)
    requires at + |t| <= buf.Length
    modifies buf
    ensures buf[..at] == old(buf[..at]) && buf[at..at + |t|] == t && buf[at + |t|..] == old(buf[at + |t|..])
  {
    for i := 0 to |t|
      invariant forall j :: 0 <= j < buf.Length ==> buf[j] == if at <= j < at + i then t[j - at] else old(buf[j])
    {
      buf[at + i] := t[i];
    }
  }

  lemma Same(b: Text, packet: Text, src: nat, end: nat)
    requires src <= end <= |b| == |packet| && b[src..] == packet[src..]
    ensures b[src..end] == packet[src..end]
  {
    assert b[src..end] == b[src..][..end - src];
    assert packet[src..end] == packet[src..][..end - src];
  }

  lemma Closed(b: Text, c: Text, packet: Text, start: nat, dst: nat, src: nat, end: nat)
    requires start <= dst <= src < end <= |b| == |packet| && c == b[dst := 0]
    requires b[src..] == packet[src..] && b[..start] == packet[..start]
    ensures c[start..dst] == b[start..dst] && c[src + 1..] == packet[src + 1..] && c[..start] == packet[..start]
    ensures packet[src..end][1..] == c[src + 1..end]
  {
    assert c[src + 1..] == b[src..][1..] == packet[src..][1..];
    Same(c, packet, src + 1, end);
  }

  // Writing at dst touches neither what lies before start nor what is still to be read.
  lemma Around(b: Text, c: Text, packet: Text, start: nat, dst: nat, t: Text, src: nat, after: nat)
    requires start <= dst <= src && dst + |t| <= after && src <= after <= |b| == |c| == |packet|
    requires c[..dst] == b[..dst] && c[dst..dst + |t|] == t && c[dst + |t|..] == b[dst + |t|..]
    requires b[src..] == packet[src..] && b[..start] == packet[..start]
    ensures c[after..] == packet[after..] && c[..start] == packet[..start] && c[start..dst + |t|] == b[start..dst] + t
  {
    assert c[after..] == c[dst + |t|..][after - dst - |t|..];
    assert b[after..] == b[dst + |t|..][after - dst - |t|..] == b[src..][after - src..];
    assert packet[after..] == packet[src..][after - src..];
    assert c[..start] == c[..dst][..start] && b[..start] == b[..dst][..start];
    assert c[start..dst + |t|] == c[..dst][start..] + c[dst..dst + |t|];
  }

  lemma CloseHere(before: Text, rest: Text, to: Octet)
    requires rest != [] && Scan(rest, to) == Some(Field([], rest[1..]))
    ensures Prefixed(before, Scan(rest, to)) == Some(Field(before, rest[1..]))
  {
    hide Scan;
    assert before + [] == before;
  }

  lemma NothingClosed(to: Octet)
    ensures Scan([], to) == None
    ensures forall t: Text :: Prefixed(t, None) == None
  {
  }
}
