/** A receiver of the satellite sentences, and what it gets to know: NMEA 0183 version 3.01, section 5.2
    (fields between commas) and section 5.3 (a sentence and its checksum). */
module NmeaReader {
  import opened ListSpec
  import opened NmeaText
  import opened Nmea

  predicate NoComma(s: string) {
    ',' !in s
  }

  /** The fields of a sentence. */
  function Split(s: string): (r: seq<string>)
    ensures r != []
  {
    if s == "" then [""]
    else
      var fields, c := Split(s[..|s| - 1]), s[|s| - 1];
      if c == ',' then fields + [""]
      else fields[..|fields| - 1] + [fields[|fields| - 1] + [c]]
  }

  /** Everything before the checksum. */
  function BeforeStar(s: string): string {
    s[..IndexOf(s, (c: char) => c == '*')]
  }

  function ValueOfDigit(c: char): nat {
    if '0' <= c <= '9' then c as int - '0' as int else 0
  }

  function Natural(s: string): nat {
    if s == "" then 0 else 10 * Natural(s[..|s| - 1]) + ValueOfDigit(s[|s| - 1])
  }

  function Number(s: string): int {
    if s != "" && s[0] == '-' then -(Natural(s[1..]) as int) else Natural(s)
  }

  /** What a sentence can say of one satellite. */
  datatype Reading = Reading(prn: int, elevation: int, azimuth: int, snr: Option<int>)

  function Shown(sv: Sv): Reading {
    Reading(sv.prn, sv.elevation, sv.azimuth, if sv.tracked then Some(sv.snr) else None)
  }

  function AllShown(svs: seq<Sv>): (r: seq<Reading>)
    ensures |r| == |svs|
  {
    seq(|svs|, i requires 0 <= i < |svs| => Shown(svs[i]))
  }

  function OneReading(four: seq<string>): Reading
    requires |four| == 4
  {
    Reading(Number(four[0]), Number(four[1]), Number(four[2]),
            if four[3] == "" then None else Some(Number(four[3])))
  }

  /** Groups of four fields; a rest of fewer is not a satellite. */
  function Readings(fields: seq<string>): seq<Reading> {
    if |fields| < 4 then [] else [OneReading(fields[..4])] + Readings(fields[4..])
  }

  /** A GSV sentence: how many there are, which this is, how many satellites in all, and those in it. */
  datatype Gsv = Gsv(name: string, total: int, number: int, count: int, svs: seq<Reading>)

  function ReadGsv(text: string): Option<Gsv> {
    var fields := Split(BeforeStar(text));
    if |fields| < 4 then None
    else Some(Gsv(fields[0], Number(fields[1]), Number(fields[2]), Number(fields[3]), Readings(fields[4..])))
  }

  /** What `f` gives for each element, put together. */
  function Collect<A, B>(s: seq<A>, f: A -> seq<B>): seq<B> {
    if s == [] then [] else Collect(s[..|s| - 1], f) + f(s[|s| - 1])
  }

  lemma {:induction false} CollectConcat<A, B>(a: seq<A>, b: seq<A>, f: A -> seq<B>)
    ensures Collect(a + b, f) == Collect(a, f) + Collect(b, f)
  {
    if b == [] {
      assert a + b == a;
    } else {
      CollectConcat(a, b[..|b| - 1], f);
      assert (a + b)[..|a + b| - 1] == a + b[..|b| - 1];
    }
  }

  lemma {:induction false} CollectPieces<A, B>(s: seq<A>, f: A -> seq<B>, pieces: seq<seq<B>>)
    requires |pieces| == |s| && forall i :: 0 <= i < |s| ==> f(s[i]) == pieces[i]
    ensures Collect(s, f) == Flatten(pieces)
  {
    if s != [] {
      CollectPieces(s[..|s| - 1], f, pieces[..|s| - 1]);
    }
  }

  lemma {:induction false} CollectNothing<A, B>(s: seq<A>, f: A -> seq<B>)
    requires forall i :: 0 <= i < |s| ==> f(s[i]) == []
    ensures Collect(s, f) == []
  {
    if s != [] {
      CollectNothing(s[..|s| - 1], f);
    }
  }

  // ----- Numbers

  lemma DigitChar(d: nat)
    requires d < 10
    ensures ValueOfDigit(Digit(d)) == d && Digit(d) != '-' && Digit(d) != ','
  {
  }

  lemma {:induction false} NaturalDigits(n: nat)
    ensures Natural(Digits(n)) == n && Digits(n)[0] != '-' && NoComma(Digits(n))
  {
    DigitChar(n % 10);
    if n < 10 {
      assert Digits(n)[..0] == "";
    } else {
      NaturalDigits(n / 10);
      NaturalNext(Digits(n / 10), n % 10);
    }
  }

  lemma {:induction false} NaturalNext(s: string, d: nat)
    requires s != "" && d < 10 && NoComma(s)
    ensures var t := s + [Digit(d)]; Natural(t) == 10 * Natural(s) + d && t[0] == s[0] && NoComma(t)
  {
    DigitChar(d);
    assert (s + [Digit(d)])[..|s|] == s;
  }

  lemma {:induction false} NaturalZeros(k: int, s: string)
    requires s != "" && s[0] != '-' && NoComma(s)
    ensures var t := Zeros(k) + s; Natural(t) == Natural(s) && t[0] != '-' && NoComma(t)
    decreases k
  {
    if k <= 0 {
      assert Zeros(k) + s == s;
    } else {
      NaturalZeros(k - 1, s);
      assert Zeros(k) + s == "0" + (Zeros(k - 1) + s);
      NaturalZero(Zeros(k - 1) + s);
    }
  }

  lemma {:induction false} NaturalZero(s: string)
    ensures Natural("0" + s) == Natural(s)
  {
    var t := "0" + s;
    if s == "" {
      assert t[..0] == "";
    } else {
      NaturalZero(s[..|s| - 1]);
      assert t[..|t| - 1] == "0" + s[..|s| - 1];
    }
  }

  lemma {:induction false} Signed(s: string)
    requires s != "" && s[0] != '-' && NoComma(s)
    ensures Number(s) == Natural(s)
    ensures Number("-" + s) == -(Natural(s) as int) && NoComma("-" + s)
  {
    assert ("-" + s)[1..] == s;
  }

  /** %d and %0<width>d can be read back. */
  lemma NumberPadded(n: int, width: nat)
    ensures Number(Padded(n, width)) == n && NoComma(Padded(n, width)) && Padded(n, width) != ""
    ensures Number(Plain(n)) == n && NoComma(Plain(n))
  {
    var size: nat := if n >= 0 then n else -n;
    var digits := Digits(size);
    var zeros := Zeros(width - |digits| - if n >= 0 then 0 else 1);
    NaturalDigits(size);
    NaturalZeros(width - |digits| - if n >= 0 then 0 else 1, digits);
    Signed(zeros + digits);
    Signed(digits);
    Associative("-", zeros, digits);
  }

  // ----- Fields

  function Join(s: string, field: string): string {
    s + "," + field
  }

  lemma {:induction false} SplitPlain(s: string)
    requires NoComma(s)
    ensures Split(s) == [s]
  {
    if s != "" {
      SplitPlain(s[..|s| - 1]);
      assert s == s[..|s| - 1] + [s[|s| - 1]];
    }
  }

  /** One more field. */
  lemma {:induction false} SplitNext(s: string, field: string)
    requires NoComma(field)
    ensures Split(Join(s, field)) == Split(s) + [field]
    decreases |field|
  {
    var t := Join(s, field);
    if field == "" {
      assert t[..|t| - 1] == s;
    } else {
      var last := |field| - 1;
      SplitNext(s, field[..last]);
      assert t[..|t| - 1] == Join(s, field[..last]);
      assert field == field[..last] + [field[last]];
    }
  }

  lemma JoinAssociative(s: string, t: string, field: string)
    ensures s + Join(t, field) == Join(s + t, field)
  {
    Associative(s, t + ",", field);
    Associative(s, t, ",");
  }

  lemma {:induction false} SplitFour(s: string, a: string, b: string, c: string, d: string)
    requires NoComma(a) && NoComma(b) && NoComma(c) && NoComma(d)
    ensures Split(s + Join(Join(Join("," + a, b), c), d)) == Split(s) + [a, b, c, d]
  {
    var one := Join(s, a);
    var two := Join(one, b);
    var three := Join(two, c);
    Associative(s, ",", a);
    JoinAssociative(s, "," + a, b);
    JoinAssociative(s, Join("," + a, b), c);
    JoinAssociative(s, Join(Join("," + a, b), c), d);
    SplitNext(s, a);
    SplitNext(one, b);
    SplitNext(two, c);
    SplitNext(three, d);
  }

  function SvFields(sv: Sv): (r: seq<string>)
    ensures |r| == 4
  {
    [Padded(sv.prn, 2), Padded(sv.elevation, 2), Padded(sv.azimuth, 3), if sv.tracked then Padded(sv.snr, 2) else ""]
  }

  lemma {:induction false} SplitSv(s: string, sv: Sv)
    ensures Split(s + SvText(sv)) == Split(s) + SvFields(sv)
  {
    var f := SvFields(sv);
    NumberPadded(sv.prn, 2);
    NumberPadded(sv.elevation, 2);
    NumberPadded(sv.azimuth, 3);
    NumberPadded(sv.snr, 2);
    SplitFour(s, f[0], f[1], f[2], f[3]);
  }

  lemma {:induction false} DigitsSize(n: nat)
    ensures n < 10 ==> |Digits(n)| == 1
    ensures 10 <= n < 100 ==> |Digits(n)| == 2
    ensures 100 <= n < 1000 ==> |Digits(n)| == 3
  {
    if 10 <= n {
      DigitsSize(n / 10);
    }
  }

  lemma {:induction false} ZerosSize(k: int)
    ensures |Zeros(k)| == if k <= 0 then 0 else k
  {
    if k > 0 {
      ZerosSize(k - 1);
    }
  }

  lemma PaddedSize(n: nat, width: nat)
    requires n < 1000 && (n >= 100 ==> width >= 3) && (n >= 10 ==> width >= 2) && width >= 1
    ensures |Padded(n, width)| == width
  {
    DigitsSize(n);
    ZerosSize(width - |Digits(n)|);
  }

  /** With fields in range the number, the elevation and the signal strength take two characters each and the azimuth
      three, as NMEA 0183 lays them down; the signal strength of a satellite that is not tracked is left empty. */
  lemma FieldWidths(sv: Sv)
    requires InRange(sv)
    ensures var fields := Split(SvText(sv));
      && |fields| == 5 && fields[0] == ""
      && |fields[1]| == 2 && |fields[2]| == 2 && |fields[3]| == 3
      && |fields[4]| == if sv.tracked then 2 else 0
  {
    assert "" + SvText(sv) == SvText(sv);
    SplitSv("", sv);
    PaddedSize(sv.prn, 2);
    PaddedSize(sv.elevation, 2);
    PaddedSize(sv.azimuth, 3);
    PaddedSize(sv.snr, 2);
  }

  function FieldsOf(): Sv -> seq<string> {
    (sv: Sv) => SvFields(sv)
  }

  lemma {:induction false} SplitSvs(s: string, svs: seq<Sv>)
    ensures Split(s + SvTexts(svs)) == Split(s) + Collect(svs, FieldsOf())
  {
    if svs == [] {
      assert s + "" == s;
    } else {
      var front, sv := svs[..|svs| - 1], svs[|svs| - 1];
      SplitSvs(s, front);
      SplitSv(s + SvTexts(front), sv);
      Associative(s, SvTexts(front), SvText(sv));
    }
  }

  lemma {:induction false} ReadingsNext(fields: seq<string>, four: seq<string>)
    requires |fields| % 4 == 0 && |four| == 4
    ensures Readings(fields + four) == Readings(fields) + [OneReading(four)]
    decreases |fields|
  {
    var all := fields + four;
    if fields == [] {
      assert all[..4] == four && all[4..] == [];
    } else {
      assert all[4..] == fields[4..] + four && all[..4] == fields[..4];
      ReadingsNext(fields[4..], four);
    }
  }

  lemma ReadingShows(sv: Sv)
    ensures OneReading(SvFields(sv)) == Shown(sv)
  {
    NumberPadded(sv.prn, 2);
    NumberPadded(sv.elevation, 2);
    NumberPadded(sv.azimuth, 3);
    NumberPadded(sv.snr, 2);
  }

  lemma AllShownConcat(a: seq<Sv>, b: seq<Sv>)
    ensures AllShown(a + b) == AllShown(a) + AllShown(b)
  {
  }

  lemma {:induction false} GroupsRead(svs: seq<Sv>, f: Sv -> seq<string>)
    requires forall i :: 0 <= i < |svs| ==> |f(svs[i])| == 4 && OneReading(f(svs[i])) == Shown(svs[i])
    ensures |Collect(svs, f)| % 4 == 0 && Readings(Collect(svs, f)) == AllShown(svs)
  {
    if svs != [] {
      var front, sv := svs[..|svs| - 1], svs[|svs| - 1];
      GroupsRead(front, f);
      ReadingsNext(Collect(front, f), f(sv));
      AllShownConcat(front, [sv]);
      assert svs == front + [sv] && AllShown([sv]) == [Shown(sv)];
    }
  }

  lemma {:induction false} ReadingsShow(svs: seq<Sv>)
    ensures Readings(Collect(svs, FieldsOf())) == AllShown(svs)
  {
    forall i | 0 <= i < |svs| ensures |FieldsOf()(svs[i])| == 4 && OneReading(FieldsOf()(svs[i])) == Shown(svs[i]) {
      ReadingShows(svs[i]);
    }
    GroupsRead(svs, FieldsOf());
  }

  // ----- Sentences

  function Name(talker: string): string {
    "$" + talker + "GSV"
  }

  lemma SplitThree(name: string, a: string, b: string, c: string)
    requires NoComma(name) && NoComma(a) && NoComma(b) && NoComma(c)
    ensures Split(Join(Join(Join(name, a), b), c)) == [name, a, b, c]
  {
    SplitPlain(name);
    SplitNext(name, a);
    SplitNext(Join(name, a), b);
    SplitNext(Join(Join(name, a), b), c);
  }

  lemma NameComma(talker: string)
    requires NoComma(talker)
    ensures NoComma(Name(talker)) && Name(talker) + "," == "$" + talker + "GSV,"
  {
    Associative("$" + talker, "GSV", ",");
    assert "GSV" + "," == "GSV,";
  }

  lemma SplitHeader(talker: string, total: nat, number: nat, count: nat)
    requires NoComma(talker)
    ensures Split(Header(talker, total, number, count)) ==
            [Name(talker), Plain(total), Plain(number), Padded(count, 2)]
  {
    NumberPadded(total, 0);
    NumberPadded(number, 0);
    NumberPadded(count, 2);
    NameComma(talker);
    SplitThree(Name(talker), Plain(total), Plain(number), Padded(count, 2));
  }

  lemma BeforeSeal(body: string)
    requires Clean(body)
    ensures BeforeStar(Seal(body)) == body
  {
    IndexOfIs(Seal(body), (c: char) => c == '*', |body|);
  }

  /** A sentence tells a receiver its place among the others and the satellites of its page. */
  lemma PageRead(talker: string, svs: seq<Sv>, k: nat)
    requires Clean(talker) && NoComma(talker) && 4 * k < |svs|
    ensures ReadGsv(Seal(Body(talker, svs, k))) ==
            Some(Gsv(Name(talker), PageCount(|svs|), k + 1, |svs|, AllShown(Page(svs, k))))
  {
    var head := Header(talker, PageCount(|svs|), k + 1, |svs|);
    BodiesClean(talker, svs);
    BodyOf(talker, svs, k);
    BeforeSeal(Body(talker, svs, k));
    SplitHeader(talker, PageCount(|svs|), k + 1, |svs|);
    SplitSvs(head, Page(svs, k));
    ReadingsShow(Page(svs, k));
    NumberPadded(PageCount(|svs|), 0);
    NumberPadded(k + 1, 0);
    NumberPadded(|svs|, 2);
    assert (Split(head) + Collect(Page(svs, k), FieldsOf()))[4..] == Collect(Page(svs, k), FieldsOf());
  }

  /** With no satellite the one sentence says so. */
  lemma BlankRead(talker: string)
    requires Clean(talker) && NoComma(talker)
    ensures ReadGsv(Seal("$" + talker + "GSV,1,1,0,")) == Some(Gsv(Name(talker), 1, 1, 0, []))
  {
    var body := "$" + talker + "GSV,1,1,0,";
    var four := Join(Join(Join(Name(talker), "1"), "1"), "0");
    BeforeSeal(body);
    NameComma(talker);
    SplitThree(Name(talker), "1", "1", "0");
    SplitNext(four, "");
    Associative("$" + talker, "GSV,", "1,1,0,");
    assert body == Join(four, "");
    assert Number("1") == 1 && Number("0") == 0;
  }

  // ----- A whole report

  /** What one sentence says of satellites to a receiver that looks for those called `name`. */
  function SaysOf(name: string): string -> seq<Reading> {
    (text: string) =>
      match ReadGsv(text)
      case Some(g) => if g.name == name then g.svs else []
      case None => []
  }

  function Said(texts: seq<string>, name: string): seq<Reading> {
    Collect(texts, SaysOf(name))
  }

  function ShownPages(svs: seq<Sv>): (r: seq<seq<Reading>>)
    ensures |r| == PageCount(|svs|)
  {
    var pages := Pages(svs);
    seq(|pages|, k requires 0 <= k < |pages| => AllShown(pages[k]))
  }

  lemma {:induction false} FlattenShown(pages: seq<seq<Sv>>, shown: seq<seq<Reading>>)
    requires |shown| == |pages| && forall i :: 0 <= i < |pages| ==> shown[i] == AllShown(pages[i])
    ensures Flatten(shown) == AllShown(Flatten(pages))
  {
    if pages != [] {
      var n := |pages| - 1;
      FlattenShown(pages[..n], shown[..n]);
      AllShownConcat(Flatten(pages[..n]), pages[n]);
    }
  }

  lemma SaysPage(talker: string, svs: seq<Sv>, k: nat, name: string)
    requires Clean(talker) && NoComma(talker) && 4 * k < |svs|
    ensures SaysOf(name)(Seal(Body(talker, svs, k))) == if name == Name(talker) then AllShown(Page(svs, k)) else []
  {
    PageRead(talker, svs, k);
  }

  /** The sentences of one system say its satellites, all and in order. */
  lemma SaidBodies(talker: string, svs: seq<Sv>, name: string)
    requires Clean(talker) && NoComma(talker)
    ensures Said(SealAll(Bodies(talker, svs)), name) == if name == Name(talker) then AllShown(svs) else []
  {
    var texts := SealAll(Bodies(talker, svs));
    if svs == [] {
      BlankRead(talker);
      CollectNothing(texts, SaysOf(name));
    } else {
      forall k | 0 <= k < |texts|
        ensures SaysOf(name)(texts[k]) == if name == Name(talker) then AllShown(Page(svs, k)) else []
      {
        SaysPage(talker, svs, k, name);
      }
      if name == Name(talker) {
        CollectPieces(texts, SaysOf(name), ShownPages(svs));
        FlattenShown(Pages(svs), ShownPages(svs));
        PagesPartition(svs);
      } else {
        CollectNothing(texts, SaysOf(name));
      }
    }
  }

  lemma {:induction false} SplitFirst(s: string, k: nat)
    requires k < |s| && s[k] == ',' && NoComma(s[..k])
    ensures Split(s)[0] == s[..k] && |Split(s)| > 1
  {
    var front := s[..|s| - 1];
    if k == |s| - 1 {
      SplitPlain(front);
    } else {
      assert front[..k] == s[..k];
      SplitFirst(front, k);
    }
  }

  /** A sentence with another name. */
  lemma SaysOther(body: string, k: nat, name: string)
    requires Clean(body) && k < |body| && body[k] == ',' && NoComma(body[..k]) && body[..k] != name
    ensures SaysOf(name)(Seal(body)) == []
  {
    BeforeSeal(body);
    SplitFirst(body, k);
  }

  lemma SaysBlank(i: nat, name: string)
    requires i < |BLANKS| && (name == "$GPGSV" || name == "$GLGSV")
    ensures SaysOf(name)(Seal(BLANKS[i])) == []
  {
    assert BLANKS[i][5] != 'V';
    SaysOther(BLANKS[i], 6, name);
  }

  lemma SaidBlanks(name: string)
    requires name == "$GPGSV" || name == "$GLGSV"
    ensures Said(SealAll(BLANKS), name) == []
  {
    forall i | 0 <= i < |BLANKS| ensures SaysOf(name)(SealAll(BLANKS)[i]) == [] {
      SaysBlank(i, name);
    }
    CollectNothing(SealAll(BLANKS), SaysOf(name));
  }

  lemma SealAllConcat(a: seq<string>, b: seq<string>)
    ensures SealAll(a + b) == SealAll(a) + SealAll(b)
  {
  }

  lemma SaidTogether(a: seq<string>, b: seq<string>, c: seq<string>, name: string)
    ensures Said(SealAll(a + b + c), name) ==
            Said(SealAll(a), name) + Said(SealAll(b), name) + Said(SealAll(c), name)
  {
    SealAllConcat(a, b);
    SealAllConcat(a + b, c);
    CollectConcat(SealAll(a), SealAll(b), SaysOf(name));
    CollectConcat(SealAll(a + b), SealAll(c), SaysOf(name));
  }

  lemma SaidReport(svs: seq<Sv>, used: nat, name: string)
    requires name == "$GPGSV" || name == "$GLGSV"
    ensures Said(SealAll(Report(svs, used)), name) ==
            Said(SealAll(GpsBodies(svs)), name) + Said(SealAll(GlonassBodies(svs)), name)
  {
    SaidBlanks(name);
    assert Said(SealAll([]), name) == [];
    SaidTogether(GpsBodies(svs), GlonassBodies(svs), if used == 0 then BLANKS else [], name);
  }

  /** The receiver of a whole report learns of exactly the GPS satellites from the one kind of sentence and
      exactly the GLONASS satellites from the other, each in the order of the report. */
  lemma {:induction false} EverySatelliteSaid(svs: seq<Sv>, used: nat)
    ensures var texts := SealAll(Report(svs, used));
      && Said(texts, "$GPGSV") == AllShown(Filter(svs, InSystem(GPS_PRN_START, GPS_PRN_END)))
      && Said(texts, "$GLGSV") == AllShown(Filter(svs, InSystem(GLONASS_PRN_START, GLONASS_PRN_END)))
  {
    assert Name("GP") == "$GPGSV" && Name("GL") == "$GLGSV";
    forall name | name == "$GPGSV" || name == "$GLGSV"
      ensures Said(SealAll(Report(svs, used)), name) ==
              (if name == Name("GP") then AllShown(Filter(svs, InSystem(GPS_PRN_START, GPS_PRN_END))) else [])
              + if name == Name("GL") then AllShown(Filter(svs, InSystem(GLONASS_PRN_START, GLONASS_PRN_END))) else []
    {
      SaidReport(svs, used, name);
      SaidBodies("GP", Filter(svs, InSystem(GPS_PRN_START, GPS_PRN_END)), name);
      SaidBodies("GL", Filter(svs, InSystem(GLONASS_PRN_START, GLONASS_PRN_END)), name);
    }
  }

  /** Of what loc_eng_nmea_generate_sv sends, whatever the fields, a receiver learns of the first satellites
      of each system; with fields in range, of all. */
  lemma {:induction false} SentSatellites(svs: seq<Sv>, used: nat, out: seq<string>)
    requires SentAll(Report(svs, used), out)
    ensures Said(out, "$GPGSV") <= AllShown(Filter(svs, InSystem(GPS_PRN_START, GPS_PRN_END)))
    ensures Said(out, "$GLGSV") <= AllShown(Filter(svs, InSystem(GLONASS_PRN_START, GLONASS_PRN_END)))
    ensures Regular(svs) ==>
      && Said(out, "$GPGSV") == AllShown(Filter(svs, InSystem(GPS_PRN_START, GPS_PRN_END)))
      && Said(out, "$GLGSV") == AllShown(Filter(svs, InSystem(GLONASS_PRN_START, GLONASS_PRN_END)))
  {
    EverySatelliteSaid(svs, used);
    var bodies := Report(svs, used);
    SentPrefix(bodies, out, "$GPGSV");
    SentPrefix(bodies, out, "$GLGSV");
    if Regular(svs) {
      WholeReport(svs, used, out);
    }
  }

  lemma SentPrefix(bodies: seq<string>, out: seq<string>, name: string)
    requires SentSoFar(bodies, out)
    ensures Said(out, name) <= Said(SealAll(bodies), name)
  {
    var sent, rest := bodies[..|out|], bodies[|out|..];
    forall i | 0 <= i < |out| ensures out[i] == SealAll(sent)[i] {
      assert SentAs()(bodies[i], out[i]);
    }
    assert out == SealAll(sent);
    assert bodies == sent + rest;
    SealAllConcat(sent, rest);
    CollectConcat(SealAll(sent), SealAll(rest), SaysOf(name));
  }
}
