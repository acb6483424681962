// The IDENT part of an EMSI packet (source/bforce/prot_emsi_misc.c): five texts and the speed,
// written by emsi_createdat and read by emsi_parsedat.
module EmsiIdent {
  import opened Wrappers
  import opened Emsi
  import opened EmsiNesting
  import opened Decimal

  // EMSI_MAXSYSNAME, EMSI_MAXLOCATION, EMSI_MAXSYSOP, EMSI_MAXPHONE and EMSI_MAXFLAGS
  const MAXFIELD := 120

  const FIELDS := 6

  datatype Ident = Ident(name: Text, location: Text, sysop: Text, phone: Text, speed: int, flags: Text)

  // ---------------------------------------------------------------------------
  // Numbers
  // ---------------------------------------------------------------------------

  // Numbers are good texts without any weight.
  lemma {:induction false} LightIsGood(s: Text)
    requires forall i :: 0 <= i < |s| ==> IsDigit(s[i]) || s[i] == 45
    ensures IsText(s) && Good(s) && Total(s) == 0
  {
    if s != [] {
      LightIsGood(s[1..]);
      assert s == [s[0]] + s[1..];
    }
  }

  lemma SpeedText(v: int)
    requires -0x8000_0000 <= v < 0x8000_0000
    ensures IsText(Show(v)) && Good(Show(v)) && Total(Show(v)) == 0 && |Show(v)| <= 11
  {
    hide Digits, Good, IsText, Total;
    LightIsGood(Show(v));
    ShowIsShort(v);
  }

  // ---------------------------------------------------------------------------
  // Writing and reading
  // ---------------------------------------------------------------------------

  function Texts(id: Ident): seq<Text> {
    [id.name, id.location, id.sysop, id.phone, if id.speed != 0 then Show(id.speed) else [], id.flags]
  }

  // The identification as emsi_parsedat fills it in, from fields that start out empty
  function Filled(r: seq<Text>): Ident
    requires |r| == FIELDS
  {
    var speed := ScanInt(Cut(r[4]));
    Ident(Copied(r[0], MAXFIELD), Copied(r[1], MAXFIELD), Copied(r[2], MAXFIELD), Copied(r[3], MAXFIELD),
          if speed.Some? then speed.value.value else 0, Copied(r[5], MAXFIELD))
  }

  function ParseIdent(s: Text): Option<(Ident, Text)> {
    match GetField(s, OPEN_BRACE, CLOSE_BRACE)
    case None => None
    case Some(f) =>
      var r := GetFields(Cut(f.text), FIELDS);
      if r.Some? && |r.value| == FIELDS then Some((Filled(r.value), f.rest)) else None
  }

  function Strings(id: Ident): seq<Text> {
    [id.name, id.location, id.sysop, id.phone, id.flags]
  }

  lemma AllFields(id: Ident)
    requires AllTexts(Strings(id)) && -0x8000_0000 <= id.speed < 0x8000_0000
    ensures AllTexts(Texts(id)) && (AllGood(Texts(id)) <==> AllGood(Strings(id)))
    ensures Fit(Texts(id), MAXFIELD) <==> Fit(Strings(id), MAXFIELD)
    ensures Total(Texts(id)[4]) == 0
  {
    hide Good, IsText, Total, Show;
    SpeedText(id.speed);
    LightIsGood([]);
    var fs, ss := Texts(id), Strings(id);
    assert ss[0] == fs[0] && ss[1] == fs[1] && ss[2] == fs[2] && ss[3] == fs[3] && ss[4] == fs[5];
  }

  lemma SpeedBack(speed: int)
    requires -0x8000_0000 <= speed < 0x8000_0000
    ensures var v := ScanInt(Cut(if speed != 0 then Show(speed) else [])); speed == if v.Some? then v.value.value else 0
  {
    hide Good, Total, Show, ScanInt;
    if speed != 0 {
      SpeedText(speed);
      CutAlone(Show(speed));
      ShowRead(speed, []);
      assert Show(speed) + [] == Show(speed);
    } else {
      assert ScanInt([]) == None by { NoNumber(); }
    }
  }

  lemma NoNumber()
    ensures ScanInt([]) == None
  {
  }

  // An identification is read as it was written exactly if its texts are good and fit.
  lemma IdentExactly(id: Ident, more: Text)
    requires AllTexts(Strings(id)) && -0x8000_0000 <= id.speed < 0x8000_0000
    requires more == [] || more[0] != CLOSE_BRACE
    ensures ParseIdent(Nested(Texts(id)) + more) == Some((id, more))
            <==> AllGood(Strings(id)) && Fit(Strings(id), MAXFIELD)
  {
    hide Nested, Scan, Good, IsText, Total, Show, ScanInt, Copied, Cut, GetFields, GetField, Opened, AllGood,
         AllTexts, Fit;
    var fs := Texts(id);
    AllFields(id);
    SpeedBack(id.speed);
    if AllGood(Strings(id)) && Fit(Strings(id), MAXFIELD) {
      NestedReads(fs, more);
      GoodIsCopied(fs, MAXFIELD);
      SameFields(fs);
    } else if ParseIdent(Nested(fs) + more) == Some((id, more)) {
      var f := GetField(Nested(fs) + more, OPEN_BRACE, CLOSE_BRACE).value;
      var r := GetFields(Cut(f.text), FIELDS).value;
      CameBack(id, r);
      NestedOnly(fs, MAXFIELD, more, f, r);
    }
  }

  lemma SameFields(fs: seq<Text>)
    requires |fs| == FIELDS && seq(|fs|, i requires 0 <= i < |fs| => Copied(fs[i], MAXFIELD)) == fs
    ensures Copied(fs[0], MAXFIELD) == fs[0] && Copied(fs[1], MAXFIELD) == fs[1] && Copied(fs[2], MAXFIELD) == fs[2]
    ensures Copied(fs[3], MAXFIELD) == fs[3] && Copied(fs[5], MAXFIELD) == fs[5]
  {
    hide Copied;
    var c := seq(|fs|, i requires 0 <= i < |fs| => Copied(fs[i], MAXFIELD));
    assert forall i :: 0 <= i < |fs| ==> c[i] == Copied(fs[i], MAXFIELD);
  }

  // What has been filled in is no longer than its field.
  lemma CameBack(id: Ident, r: seq<Text>)
    requires |r| == FIELDS && Filled(r) == id && Total(Texts(id)[4]) == 0
    ensures Fit(Strings(id), MAXFIELD) && Back(r, Texts(id), MAXFIELD)
  {
    hide Total, Show, ScanInt, Cut;
    var fs := Texts(id);
  }
}
