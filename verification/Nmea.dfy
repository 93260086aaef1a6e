/** Satellite reports in gps/libloc_api_50001/loc_eng_nmea.cpp: the GPGSV and GLGSV sentences and the
    list of used satellites for GPGSA. */
module Nmea {
  import opened ListSpec
  import opened NmeaText

  const GPS_PRN_START := 1
  const GPS_PRN_END := 32
  const GLONASS_PRN_START := 65
  const GLONASS_PRN_END := 96
  const GPS_MAX_SVS := 32

  /** A GpsSvInfo with its angles and signal strength rounded to integers; `tracked` is snr > 0. */
  datatype Sv = Sv(prn: int, elevation: int, azimuth: int, snr: int, tracked: bool)

  function InSystem(lo: int, hi: int): Sv -> bool {
    (sv: Sv) => lo <= sv.prn <= hi
  }

  // ----- What the sentences say

  function Angles(sv: Sv): string {
    "," + Padded(sv.prn, 2) + "," + Padded(sv.elevation, 2) + "," + Padded(sv.azimuth, 3) + ","
  }

  function SvText(sv: Sv): string {
    Angles(sv) + if sv.tracked then Padded(sv.snr, 2) else ""
  }

  function SvTexts(svs: seq<Sv>): string {
    if svs == [] then "" else SvTexts(svs[..|svs| - 1]) + SvText(svs[|svs| - 1])
  }

  function PageCount(n: nat): nat {
    n / 4 + if n % 4 != 0 then 1 else 0
  }

  /** The satellites of sentence `k`, counted from 0. */
  function Page(svs: seq<Sv>, k: nat): seq<Sv>
    requires 4 * k < |svs|
  {
    svs[4 * k..Min(4 * k + 4, |svs|)]
  }

  function Header(talker: string, total: nat, number: nat, count: nat): string {
    "$" + talker + "GSV," + Plain(total) + "," + Plain(number) + "," + Padded(count, 2)
  }

  function Body(talker: string, svs: seq<Sv>, k: nat): string
    requires 4 * k < |svs|
  {
    Header(talker, PageCount(|svs|), k + 1, |svs|) + SvTexts(Page(svs, k))
  }

  /** Every sentence for the satellites `svs` of one system, without checksums. */
  function Bodies(talker: string, svs: seq<Sv>): (r: seq<string>)
    ensures |r| == if svs == [] then 1 else PageCount(|svs|)
  {
    if svs == [] then ["$" + talker + "GSV,1,1,0,"]
    else seq(PageCount(|svs|), k requires 0 <= k < PageCount(|svs|) => Body(talker, svs, k))
  }

  predicate Fits(s: string) {
    0 < |s| < NMEA_SENTENCE_MAX_LENGTH
  }

  function Seal(body: string): string {
    if Fits(body) then Sealed(body, NMEA_SENTENCE_MAX_LENGTH) else body
  }

  function SealAll(bodies: seq<string>): (r: seq<string>)
    ensures |r| == |bodies|
    ensures forall i :: 0 <= i < |r| ==> r[i] == Seal(bodies[i])
  {
    seq(|bodies|, i requires 0 <= i < |bodies| => Seal(bodies[i]))
  }

  // ----- Pagination

  function Pages(svs: seq<Sv>): (r: seq<seq<Sv>>)
    ensures |r| == PageCount(|svs|)
  {
    seq(PageCount(|svs|), k requires 0 <= k < PageCount(|svs|) => Page(svs, k))
  }

  function Flatten<T>(ss: seq<seq<T>>): seq<T> {
    if ss == [] then [] else Flatten(ss[..|ss| - 1]) + ss[|ss| - 1]
  }

  lemma {:induction false} FlattenPages(svs: seq<Sv>, n: nat)
    requires n <= PageCount(|svs|)
    ensures Flatten(Pages(svs)[..n]) == svs[..Min(4 * n, |svs|)]
  {
    if n > 0 {
      FlattenPages(svs, n - 1);
      assert Pages(svs)[..n][..n - 1] == Pages(svs)[..n - 1];
    }
  }

  /** The pages put together are the satellites in order; all but the last have four, the last one to four. */
  lemma PagesPartition(svs: seq<Sv>)
    ensures Flatten(Pages(svs)) == svs
    ensures forall k :: 0 <= k < |Pages(svs)| - 1 ==> |Pages(svs)[k]| == 4
    ensures svs != [] ==> Pages(svs) != [] && 1 <= |Pages(svs)[|Pages(svs)| - 1]| <= 4
  {
    FlattenPages(svs, PageCount(|svs|));
    assert Pages(svs)[..PageCount(|svs|)] == Pages(svs);
  }

  predicate InRange(sv: Sv) {
    0 <= sv.prn < 100 && 0 <= sv.elevation < 100 && 0 <= sv.azimuth < 1000 && 0 <= sv.snr < 100
  }

  predicate Regular(svs: seq<Sv>) {
    |svs| <= GPS_MAX_SVS && forall i :: 0 <= i < |svs| ==> InRange(svs[i])
  }

  lemma {:induction false} SvTextsLength(svs: seq<Sv>)
    requires forall i :: 0 <= i < |svs| ==> InRange(svs[i])
    ensures |SvTexts(svs)| <= 13 * |svs|
  {
    if svs != [] {
      SvTextsLength(svs[..|svs| - 1]);
    }
  }

  /** With fields in range every sentence, checksum included, fits the buffer with room to spare. */
  lemma BodyFits(talker: string, svs: seq<Sv>, k: nat)
    requires |talker| == 2 && |svs| <= GPS_MAX_SVS && 4 * k < |svs|
    requires forall i :: 0 <= i < |svs| ==> InRange(svs[i])
    ensures 0 < |Body(talker, svs, k)| <= 65
  {
    var page := Page(svs, k);
    assert forall i :: 0 <= i < |page| ==> page[i] == svs[4 * k + i];
    SvTextsLength(page);
    assert PageCount(|svs|) < 10 && k + 1 < 10;
  }

  // ----- The generator

  class Sentence {
    var buffer: string  // what is in sentence[] up to pMarker

    constructor ()
      ensures buffer == ""
    {
      buffer := "";
    }

    /** snprintf at pMarker, the test of its result, and the move of pMarker. */
    method Append(text: string) returns (ok: bool)
      requires |buffer| < NMEA_SENTENCE_MAX_LENGTH
      modifies this
      ensures ok <==> |old(buffer) + text| < NMEA_SENTENCE_MAX_LENGTH
      ensures buffer == if ok then old(buffer) + text else old(buffer)
    {
      var lengthRemaining := NMEA_SENTENCE_MAX_LENGTH - |buffer|;
      ok := |text| < lengthRemaining;
      if ok {
        buffer := buffer + text;
      }
    }

    /** The two snprintf calls for one satellite. */
    method AppendSv(sv: Sv) returns (ok: bool)
      requires |buffer| < NMEA_SENTENCE_MAX_LENGTH
      modifies this
      ensures ok <==> |old(buffer) + SvText(sv)| < NMEA_SENTENCE_MAX_LENGTH
      ensures ok ==> buffer == old(buffer) + SvText(sv)
    {
      ok := Append(Angles(sv));
      if ok && sv.tracked {
        ok := Append(Padded(sv.snr, 2));
      }
    }
  }

  method CountIn(svs: seq<Sv>, lo: int, hi: int) returns (count: nat)
    ensures count == |Filter(svs, InSystem(lo, hi))|
  {
    count := 0;
    var svNumber := 1;
    assert svs[..0] == [];
    while svNumber <= |svs|
      invariant 1 <= svNumber <= |svs| + 1
      invariant count == |Filter(svs[..svNumber - 1], InSystem(lo, hi))|
    {
      FilterNext(svs, svNumber - 1, InSystem(lo, hi));
      if lo <= svs[svNumber - 1].prn <= hi {
        count := count + 1;
      }
      svNumber := svNumber + 1;
    }
    assert svs[..|svs|] == svs;
  }

  lemma FilterNext(svs: seq<Sv>, i: nat, p: Sv -> bool)
    requires i < |svs|
    ensures Filter(svs[..i + 1], p) == Filter(svs[..i], p) + if p(svs[i]) then [svs[i]] else []
  {
    assert svs[..i + 1] == svs[..i] + [svs[i]];
    FilterConcat(svs[..i], [svs[i]], p);
    FilterOne(svs[i], p);
  }

  lemma {:induction false} SvTextsNext(svs: seq<Sv>, sv: Sv)
    ensures SvTexts(svs + [sv]) == SvTexts(svs) + SvText(sv)
  {
    assert (svs + [sv])[..|svs|] == svs;
  }

  lemma {:induction false} SvTextsGrow(svs: seq<Sv>, n: nat)
    requires n <= |svs|
    ensures |SvTexts(svs[..n])| <= |SvTexts(svs)|
    decreases |svs|
  {
    if n < |svs| {
      SvTextsGrow(svs[..|svs| - 1], n);
      assert svs[..|svs| - 1][..n] == svs[..n];
    } else {
      assert svs[..n] == svs;
    }
  }

  /** Everything before position `to` has been scanned, and `i` satellites of page `k` were there. */
  ghost predicate Scanned(svs: seq<Sv>, p: Sv -> bool, sats: seq<Sv>, k: nat, i: nat, to: nat) {
    && sats == Filter(svs, p) && 4 * k < |sats|
    && 1 <= to <= |svs| + 1 && i <= |Page(sats, k)|
    && Filter(svs[..to - 1], p) == sats[..4 * k + i]
  }

  lemma Associative(a: string, b: string, c: string)
    ensures (a + b) + c == a + (b + c)
  {
  }

  lemma ScanHit(svs: seq<Sv>, p: Sv -> bool, sats: seq<Sv>, k: nat, i: nat, to: nat)
    requires Scanned(svs, p, sats, k, i, to) && to <= |svs| && i < 4 && p(svs[to - 1])
    ensures Scanned(svs, p, sats, k, i + 1, to + 1) && Page(sats, k)[i] == svs[to - 1]
  {
    FilterNext(svs, to - 1, p);
    FilterPrefix(svs, to, p);
    assert sats[4 * k + i] == svs[to - 1];
  }

  /** The text of one more satellite of a page. */
  lemma HitText(head: string, page: seq<Sv>, i: nat)
    requires i < |page|
    ensures head + SvTexts(page[..i]) + SvText(page[i]) == head + SvTexts(page[..i + 1])
    ensures |SvTexts(page[..i + 1])| <= |SvTexts(page)|
  {
    assert page[..i + 1] == page[..i] + [page[i]];
    SvTextsNext(page[..i], page[i]);
    Associative(head, SvTexts(page[..i]), SvText(page[i]));
    SvTextsGrow(page, i + 1);
  }

  lemma ScanMiss(svs: seq<Sv>, p: Sv -> bool, sats: seq<Sv>, k: nat, i: nat, to: nat)
    requires Scanned(svs, p, sats, k, i, to) && to <= |svs| && !p(svs[to - 1])
    ensures Scanned(svs, p, sats, k, i, to + 1)
  {
    FilterNext(svs, to - 1, p);
  }

  lemma ScanDone(svs: seq<Sv>, p: Sv -> bool, sats: seq<Sv>, k: nat, i: nat, to: nat)
    requires Scanned(svs, p, sats, k, i, to) && (to == |svs| + 1 || i == 4)
    ensures i == |Page(sats, k)|
  {
    if to == |svs| + 1 {
      assert svs[..to - 1] == svs;
    }
  }

  /** `sentence` holds the header and the first `i` satellites of page `k`. */
  ghost predicate Holds(sentence: Sentence, head: string, sats: seq<Sv>, k: nat, i: nat)
    requires 4 * k < |sats| && i <= |Page(sats, k)|
    reads sentence
  {
    sentence.buffer == head + SvTexts(Page(sats, k)[..i]) && |sentence.buffer| < NMEA_SENTENCE_MAX_LENGTH
  }

  /** The body of the inner for loop. */
  method ScanOne(sentence: Sentence, head: string, svs: seq<Sv>, lo: int, hi: int, i: nat, to: nat,
                 ghost k: nat, ghost sats: seq<Sv>)
    returns (ok: bool, next: nat)
    requires Scanned(svs, InSystem(lo, hi), sats, k, i, to) && to <= |svs| && i < 4
    requires Holds(sentence, head, sats, k, i)
    modifies sentence
    ensures next == if lo <= svs[to - 1].prn <= hi then i + 1 else i
    ensures next <= |Page(sats, k)|
    ensures ok ==> Scanned(svs, InSystem(lo, hi), sats, k, next, to + 1) && Holds(sentence, head, sats, k, next)
    ensures !ok ==> |head| + |SvTexts(Page(sats, k))| >= NMEA_SENTENCE_MAX_LENGTH
  {
    ok, next := true, i;
    if lo <= svs[to - 1].prn <= hi {
      ScanHit(svs, InSystem(lo, hi), sats, k, i, to);
      HitText(head, Page(sats, k), i);
      ok := sentence.AppendSv(svs[to - 1]);
      next := i + 1;
    } else {
      ScanMiss(svs, InSystem(lo, hi), sats, k, i, to);
    }
  }

  /** The inner for loop: scans on from `from` until four satellites are in or none is left. */
  method ScanPage(sentence: Sentence, head: string, svs: seq<Sv>, lo: int, hi: int, from: nat,
                  ghost k: nat, ghost sats: seq<Sv>)
    returns (ok: bool, to: nat)
    requires Scanned(svs, InSystem(lo, hi), sats, k, 0, from) && Holds(sentence, head, sats, k, 0)
    modifies sentence
    ensures ok ==> Scanned(svs, InSystem(lo, hi), sats, k, |Page(sats, k)|, to)
                   && Holds(sentence, head, sats, k, |Page(sats, k)|)
    ensures !ok ==> |head| + |SvTexts(Page(sats, k))| >= NMEA_SENTENCE_MAX_LENGTH
  {
    ok, to := true, from;
    var i := 0;
    while to <= |svs| && i < 4
      invariant Scanned(svs, InSystem(lo, hi), sats, k, i, to) && Holds(sentence, head, sats, k, i)
      decreases |svs| + 1 - to
    {
      ok, i := ScanOne(sentence, head, svs, lo, hi, i, to, k, sats);
      if !ok {
        return;
      }
      to := to + 1;
    }
    ScanDone(svs, InSystem(lo, hi), sats, k, i, to);
    ok := true;
  }

  /** One sentence without its checksum: `head` and the satellites of page `k`. */
  method FillPage(head: string, svs: seq<Sv>, lo: int, hi: int, from: nat, ghost k: nat, ghost sats: seq<Sv>)
    returns (body: string, ok: bool, to: nat)
    requires Scanned(svs, InSystem(lo, hi), sats, k, 0, from)
    ensures ok <==> |head| + |SvTexts(Page(sats, k))| < NMEA_SENTENCE_MAX_LENGTH
    ensures ok ==> body == head + SvTexts(Page(sats, k))
                   && Scanned(svs, InSystem(lo, hi), sats, k, |Page(sats, k)|, to)
  {
    var sentence := new Sentence();
    body, to := "", from;
    ok := sentence.Append(head);
    if ok {
      ghost var page := Page(sats, k);
      assert page[..0] == [] && page[..|page|] == page;
      ok, to := ScanPage(sentence, head, svs, lo, hi, from, k, sats);
      body := sentence.buffer;
    }
  }

  /** What has been scanned gives a prefix of what is to come out. */
  lemma {:induction false} FilterPrefix(svs: seq<Sv>, n: nat, p: Sv -> bool)
    requires n <= |svs|
    ensures |Filter(svs[..n], p)| <= |Filter(svs, p)|
    ensures Filter(svs, p)[..|Filter(svs[..n], p)|] == Filter(svs[..n], p)
  {
    FilterSplit(svs, svs[..n], svs[n..], p);
  }

  /** One half of loc_eng_nmea_generate_sv: the sentences sent, and whether it got to the end or left at
      a formatting error, which happens at the first sentence too long for the buffer. */
  method GenerateGsv(talker: string, svs: seq<Sv>, lo: int, hi: int) returns (out: seq<string>, ok: bool)
    requires |talker| == 2
    ensures var bodies := Bodies(talker, Filter(svs, InSystem(lo, hi)));
      SentAll(bodies, out) && (ok <==> |out| == |bodies|)
  {
    var count := CountIn(svs, lo, hi);
    if count == 0 {
      var text, _ := PutChecksum("$" + talker + "GSV,1,1,0,", NMEA_SENTENCE_MAX_LENGTH);
      out, ok := [text], true;
    } else {
      out, ok := SendPages(talker, svs, lo, hi, count);
    }
  }

  /** The while loop over the sentences. */
  method SendPages(talker: string, svs: seq<Sv>, lo: int, hi: int, count: nat) returns (out: seq<string>, ok: bool)
    requires count == |Filter(svs, InSystem(lo, hi))| > 0
    ensures var bodies := Bodies(talker, Filter(svs, InSystem(lo, hi)));
      SentAll(bodies, out) && (ok <==> |out| == |bodies|)
  {
    ghost var sats := Filter(svs, InSystem(lo, hi));
    ghost var bodies := Bodies(talker, sats);
    var svNumber := 1;
    var sentenceNumber := 1;
    var sentenceCount := PageCount(count);
    out := [];
    assert svs[..0] == [];
    while sentenceNumber <= sentenceCount
      invariant 1 <= sentenceNumber <= sentenceCount + 1 && |out| == sentenceNumber - 1
      invariant sentenceNumber <= sentenceCount ==>
        Scanned(svs, InSystem(lo, hi), sats, sentenceNumber - 1, 0, svNumber)
      invariant SentSoFar(bodies, out)
    {
      var text, fits, to := MakeSentence(talker, svs, lo, hi, count, sentenceNumber - 1, svNumber, sats);
      if !fits {
        return out, false;
      }
      svNumber := to;
      AgreeNext(bodies, out, text, SentAs());
      out := out + [text];
      sentenceNumber := sentenceNumber + 1;
    }
    ok := true;
  }

  /** One round of the while loop, up to the sending. */
  method MakeSentence(talker: string, svs: seq<Sv>, lo: int, hi: int, count: nat, k: nat, from: nat,
                      ghost sats: seq<Sv>)
    returns (text: string, ok: bool, to: nat)
    requires Scanned(svs, InSystem(lo, hi), sats, k, 0, from) && count == |sats|
    ensures k < |Bodies(talker, sats)| && (ok <==> Fits(Bodies(talker, sats)[k]))
    ensures ok ==> SentAs()(Bodies(talker, sats)[k], text)
    ensures ok && k + 1 < PageCount(count) ==> Scanned(svs, InSystem(lo, hi), sats, k + 1, 0, to)
  {
    var head := Header(talker, PageCount(count), k + 1, count);
    var body, length;
    body, ok, to := FillPage(head, svs, lo, hi, from, k, sats);
    BodyOf(talker, sats, k);
    text := "";
    if ok {
      text, length := PutChecksum(body, NMEA_SENTENCE_MAX_LENGTH);
    }
  }

  lemma BodyOf(talker: string, sats: seq<Sv>, k: nat)
    requires 4 * k < |sats|
    ensures k < |Bodies(talker, sats)|
    ensures Bodies(talker, sats)[k] ==
            Header(talker, PageCount(|sats|), k + 1, |sats|) + SvTexts(Page(sats, k))
  {
  }

  /** `p` relates the elements of `b` to those of `a` that come first. */
  ghost predicate Agree<A, B>(a: seq<A>, b: seq<B>, p: (A, B) -> bool) {
    |b| <= |a| && forall i :: 0 <= i < |b| ==> p(a[i], b[i])
  }

  lemma AgreeNext<A, B>(a: seq<A>, b: seq<B>, x: B, p: (A, B) -> bool)
    requires Agree(a, b, p) && |b| < |a| && p(a[|b|], x)
    ensures Agree(a, b + [x], p)
  {
  }

  lemma AgreeConcat<A, B>(a: seq<A>, b: seq<B>, c: seq<A>, d: seq<B>, p: (A, B) -> bool)
    requires Agree(a, b, p)
    requires if |b| == |a| then Agree(c, d, p) else d == []
    ensures Agree(a + c, b + d, p)
  {
    forall i | 0 <= i < |b + d| ensures p((a + c)[i], (b + d)[i]) {
      if i < |b| {
        assert p(a[i], b[i]);
      } else {
        assert p(c[i - |b|], d[i - |b|]);
      }
    }
  }

  function SentAs(): (string, string) -> bool {
    (body: string, text: string) => Fits(body) && text == Seal(body)
  }

  ghost predicate SentSoFar(bodies: seq<string>, out: seq<string>) {
    Agree(bodies, out, SentAs())
  }

  /** As much of it as possible: all, or up to the first that does not fit. */
  ghost predicate SentAll(bodies: seq<string>, out: seq<string>) {
    SentSoFar(bodies, out) && (|out| < |bodies| ==> !Fits(bodies[|out|]))
  }

  lemma {:induction false} SvTextsClean(svs: seq<Sv>)
    ensures Clean(SvTexts(svs))
  {
    if svs != [] {
      var sv := svs[|svs| - 1];
      SvTextsClean(svs[..|svs| - 1]);
      NumbersClean(sv.prn, 2);
      NumbersClean(sv.elevation, 2);
      NumbersClean(sv.azimuth, 3);
      NumbersClean(sv.snr, 2);
    }
  }

  lemma BodiesClean(talker: string, svs: seq<Sv>)
    requires Clean(talker)
    ensures forall i :: 0 <= i < |Bodies(talker, svs)| ==> Clean(Bodies(talker, svs)[i])
  {
    forall k | 0 <= k < PageCount(|svs|) ensures svs != [] && Clean(Body(talker, svs, k)) {
      SvTextsClean(Page(svs, k));
      NumbersClean(PageCount(|svs|), 0);
      NumbersClean(k + 1, 0);
      NumbersClean(|svs|, 2);
    }
  }

  /** Every sentence fits and passes the receiver's check. */
  ghost predicate Good(bodies: seq<string>) {
    forall i :: 0 <= i < |bodies| ==> Fits(bodies[i]) && Verifies(Seal(bodies[i]))
  }

  /** With fields in range nothing is left out: one sealed sentence for each page of the in-system
      satellites, whole, and every one passes the receiver's check. */
  lemma {:induction false} NothingLeftOut(talker: string, svs: seq<Sv>, lo: int, hi: int)
    requires |talker| == 2 && Clean(talker) && Regular(svs)
    ensures Good(Bodies(talker, Filter(svs, InSystem(lo, hi))))
  {
    var sats := Filter(svs, InSystem(lo, hi));
    FilterInRange(svs, InSystem(lo, hi));
    BodiesClean(talker, sats);
    var bodies := Bodies(talker, sats);
    forall i | 0 <= i < |bodies| ensures Fits(bodies[i]) && Verifies(Seal(bodies[i])) {
      if sats != [] {
        BodyFits(talker, sats, i);
      }
      SealedVerifies(bodies[i], NMEA_SENTENCE_MAX_LENGTH);
    }
  }

  lemma {:induction false} FilterInRange(svs: seq<Sv>, p: Sv -> bool)
    requires forall i :: 0 <= i < |svs| ==> InRange(svs[i])
    ensures forall i :: 0 <= i < |Filter(svs, p)| ==> InRange(Filter(svs, p)[i])
  {
    if svs != [] {
      FilterInRange(svs[1..], p);
    }
  }

  /** The sentences that stand in for a position report when no satellite is used. */
  const BLANKS := ["$GPGSA,A,1,,,,,,,,,,,,,,,", "$GPVTG,,T,,M,,N,,K,N", "$GPRMC,,V,,,,,,,,,,N", "$GPGGA,,,,,,0,,,,,,,,"]

  function GpsBodies(svs: seq<Sv>): seq<string> {
    Bodies("GP", Filter(svs, InSystem(GPS_PRN_START, GPS_PRN_END)))
  }

  function GlonassBodies(svs: seq<Sv>): seq<string> {
    Bodies("GL", Filter(svs, InSystem(GLONASS_PRN_START, GLONASS_PRN_END)))
  }

  /** The sentences of a report without a formatting error, in order and without their checksums. */
  function Report(svs: seq<Sv>, used: nat): seq<string> {
    GpsBodies(svs) + GlonassBodies(svs) + if used == 0 then BLANKS else []
  }

  /** Sentences for `n` satellites of one system: four each, and one if there are none. */
  function Sentences(n: nat): nat {
    if n == 0 then 1 else (n + 3) / 4
  }

  lemma Longer(a: string, s: string, t: string)
    requires a <= s
    ensures a <= s + t
  {
  }

  lemma HeaderNamed(talker: string, total: nat, number: nat, count: nat)
    ensures "$" + talker + "GSV," <= Header(talker, total, number, count)
  {
    var name := "$" + talker + "GSV,";
    var one := name + Plain(total);
    var two := one + ",";
    var three := two + Plain(number);
    var four := three + ",";
    Longer(name, name, Plain(total));
    Longer(name, one, ",");
    Longer(name, two, Plain(number));
    Longer(name, three, ",");
    Longer(name, four, Padded(count, 2));
  }

  lemma NamedBodies(talker: string, svs: seq<Sv>, i: nat)
    requires i < |Bodies(talker, svs)|
    ensures "$" + talker + "GSV," <= Bodies(talker, svs)[i]
    ensures |Bodies(talker, svs)| == Sentences(|svs|)
  {
    if svs == [] {
      Longer("$" + talker + "GSV,", "$" + talker + "GSV,", "1,1,0,");
      Associative("$" + talker, "GSV,", "1,1,0,");
      assert "GSV," + "1,1,0," == "GSV,1,1,0,";
    } else {
      var head := Header(talker, PageCount(|svs|), i + 1, |svs|);
      BodyOf(talker, svs, i);
      HeaderNamed(talker, PageCount(|svs|), i + 1, |svs|);
      Longer("$" + talker + "GSV,", head, SvTexts(Page(svs, i)));
    }
  }

  lemma BlankNames(i: nat)
    requires i < 4
    ensures ["$GPGSA,", "$GPVTG,", "$GPRMC,", "$GPGGA,"][i] <= BLANKS[i]
  {
  }

  lemma AtConcat(a: seq<string>, b: seq<string>, c: seq<string>, i: nat)
    requires i < |a| + |b| + |c|
    ensures (a + b + c)[i] == if i < |a| then a[i] else if i < |a| + |b| then b[i - |a|] else c[i - |a| - |b|]
  {
  }

  lemma {:induction false} SystemBodies(talker: string, name: string, svs: seq<Sv>, lo: int, hi: int)
    requires name == "$" + talker + "GSV,"
    ensures var bodies, sats := Bodies(talker, Filter(svs, InSystem(lo, hi))), Filter(svs, InSystem(lo, hi));
      |bodies| == Sentences(|sats|) && forall i :: 0 <= i < |bodies| ==> name <= bodies[i]
  {
    var sats := Filter(svs, InSystem(lo, hi));
    NamedBodies(talker, sats, 0);
    forall i | 0 <= i < |Bodies(talker, sats)| ensures name <= Bodies(talker, sats)[i] {
      NamedBodies(talker, sats, i);
    }
  }

  /** The order of a report: the GPS sentences, the GLONASS sentences, and only if no satellite is used the four
      that stand in for a position report. */
  lemma {:induction false} ReportOrder(svs: seq<Sv>, used: nat, i: nat)
    requires i < |Report(svs, used)|
    ensures var p := Sentences(|Filter(svs, InSystem(1, 32))|);
      var q := Sentences(|Filter(svs, InSystem(65, 96))|);
      var s := Report(svs, used)[i];
      && |Report(svs, used)| == p + q + (if used == 0 then 4 else 0)
      && (i < p ==> "$GPGSV," <= s)
      && (p <= i < p + q ==> "$GLGSV," <= s)
      && (p + q <= i ==> ["$GPGSA,", "$GPVTG,", "$GPRMC,", "$GPGGA,"][i - p - q] <= s)
  {
    var gps, glonass := GpsBodies(svs), GlonassBodies(svs);
    assert "$" + "GP" + "GSV," == "$GPGSV," && "$" + "GL" + "GSV," == "$GLGSV,";
    SystemBodies("GP", "$GPGSV,", svs, 1, 32);
    SystemBodies("GL", "$GLGSV,", svs, 65, 96);
    AtConcat(gps, glonass, if used == 0 then BLANKS else [], i);
    if |gps| + |glonass| <= i {
      BlankNames(i - |gps| - |glonass|);
    }
  }

  datatype Dop = Dop(position: real, horizontal: real, vertical: real)

  const NO_DOP := Dop(0.0, 0.0, 0.0)

  /** What loc_eng_data keeps for the next position report. */
  datatype Cache = Cache(mask: nat, dop: Dop)

  /** loc_eng_nmea_generate_sv: what is sent, up to the first sentence too long for the buffer, and the
      cache afterwards, which changes only if all was sent and a satellite is used.  With fields in range
      every GPS and every GLONASS satellite is sent, in order, and nothing else is. */
  method GenerateSv(svs: seq<Sv>, used: nat, dop: Option<Dop>, cached: Cache)
    returns (out: seq<string>, cache: Cache)
    ensures SentAll(Report(svs, used), out)
    ensures cache ==
      if used == 0 || |out| < |Report(svs, used)| then cached
      else Cache(used, if dop.Some? then dop.value else NO_DOP)
    ensures Regular(svs) ==> out == SealAll(Report(svs, used)) && forall i :: 0 <= i < |out| ==> Verifies(out[i])
  {
    ghost var gps, glonass := GpsBodies(svs), GlonassBodies(svs);
    cache := cached;
    var ok;
    out, ok := GenerateGsv("GP", svs, GPS_PRN_START, GPS_PRN_END);
    SentOn(gps, out, glonass, []);
    if ok {
      var more;
      more, ok := GenerateGsv("GL", svs, GLONASS_PRN_START, GLONASS_PRN_END);
      SentOn(gps, out, glonass, more);
      out := out + more;
    }
    var rest := [];
    if ok {
      if used == 0 {
        rest := SendBlanks();
      } else {
        cache := Cache(used, if dop.Some? then dop.value else NO_DOP);
      }
    }
    SentOn(gps + glonass, out, if used == 0 then BLANKS else [], rest);
    out := out + rest;
    if Regular(svs) {
      WholeReport(svs, used, out);
    }
  }

  /** Sending `b` after `a`, if `a` was sent to its end. */
  lemma SentOn(a: seq<string>, outA: seq<string>, b: seq<string>, outB: seq<string>)
    requires SentAll(a, outA)
    requires if |outA| == |a| then SentSoFar(b, outB) else outB == []
    ensures SentSoFar(a + b, outA + outB)
    ensures |outA| < |a| || SentAll(b, outB) ==> SentAll(a + b, outA + outB)
  {
    AgreeConcat(a, outA, b, outB, SentAs());
    assert outB == [] ==> outA + outB == outA;
  }

  /** Fields in range: the report is sent to its end, and every sentence passes the receiver's check. */
  lemma WholeReport(svs: seq<Sv>, used: nat, out: seq<string>)
    requires Regular(svs) && SentAll(Report(svs, used), out)
    ensures out == SealAll(Report(svs, used)) && forall i :: 0 <= i < |out| ==> Verifies(out[i])
  {
    NothingLeftOut("GP", svs, GPS_PRN_START, GPS_PRN_END);
    NothingLeftOut("GL", svs, GLONASS_PRN_START, GLONASS_PRN_END);
    BlanksVerify();
    var gps, glonass, blanks := GpsBodies(svs), GlonassBodies(svs), if used == 0 then BLANKS else [];
    GoodConcat(gps, glonass);
    GoodConcat(gps + glonass, blanks);
  }

  lemma GoodConcat(a: seq<string>, b: seq<string>)
    requires Good(a) && Good(b)
    ensures Good(a + b)
  {
  }

  lemma BlanksVerify()
    ensures Good(BLANKS)
  {
    forall i | 0 <= i < |BLANKS| ensures Fits(BLANKS[i]) && Verifies(Seal(BLANKS[i])) {
      SealedVerifies(BLANKS[i], NMEA_SENTENCE_MAX_LENGTH);
    }
  }

  method SendBlanks() returns (out: seq<string>)
    ensures SentAll(BLANKS, out) && |out| == |BLANKS|
  {
    out := [];
    var i := 0;
    while i < |BLANKS|
      invariant i <= |BLANKS| && |out| == i
      invariant forall j :: 0 <= j < i ==> out[j] == Seal(BLANKS[j])
    {
      var text, _ := PutChecksum(BLANKS[i], NMEA_SENTENCE_MAX_LENGTH);
      out := out + [text];
      i := i + 1;
    }
  }

  // ----- The used-in-fix mask

  /** The bit of satellite `x`. */
  function Bit(x: int): nat {
    if x <= 0 then 0 else Pow2(x - 1)
  }

  /** The mask of the first `n` in the list. */
  function MaskUpTo(list: seq<int>, n: nat): nat
    requires n <= |list|
  {
    if n == 0 then 0 else MaskUpTo(list, n - 1) + Bit(list[n - 1])
  }

  function MaskOf(list: seq<int>): nat {
    MaskUpTo(list, |list|)
  }

  lemma {:induction false} MaskPrefix(list: seq<int>, more: seq<int>, n: nat)
    requires n <= |list|
    ensures MaskUpTo(list + more, n) == MaskUpTo(list, n)
  {
    if n > 0 {
      MaskPrefix(list, more, n - 1);
    }
  }

  /** Satellite numbers in increasing order, all of them bits of a 32-bit mask. */
  predicate Numbers(list: seq<int>) {
    && (forall i :: 0 <= i < |list| ==> 1 <= list[i] <= 32)
    && forall i, j :: 0 <= i < j < |list| ==> list[i] < list[j]
  }

  /** The loop at the head of loc_eng_nmea_generate_pos: the list says exactly the mask. */
  method UsedSvs(mask: nat) returns (list: seq<int>)
    requires mask < 0x1_0000_0000
    ensures Numbers(list) && MaskOf(list) == mask
  {
    list := [];
    var i: nat, rest := 1, mask;
    while rest > 0 && |list| < 32
      invariant Extracted(mask, list, rest, i)
      decreases rest
    {
      ExtractNext(mask, list, rest, i);
      if rest % 2 == 1 {
        list := list + [i];
      }
      rest := rest / 2;
      i := i + 1;
    }
    if rest > 0 {
      WithinMask(mask, MaskOf(list), rest, i);
    }
  }

  /** The list says the bits below `i` of the mask, and `rest` is what is left of it. */
  ghost predicate Extracted(mask: nat, list: seq<int>, rest: nat, i: nat) {
    && 1 <= i <= 33 && Numbers(list) && |list| < i
    && (forall j :: 0 <= j < |list| ==> list[j] < i)
    && mask == MaskOf(list) + rest * Pow2(i - 1)
    && mask < 0x1_0000_0000
  }

  lemma ExtractNext(mask: nat, list: seq<int>, rest: nat, i: nat)
    requires Extracted(mask, list, rest, i) && rest > 0
    ensures i <= 32 && Extracted(mask, if rest % 2 == 1 then list + [i] else list, rest / 2, i + 1)
  {
    WithinMask(mask, MaskOf(list), rest, i);
    Halve(rest, Pow2(i - 1));
    if rest % 2 == 1 {
      MaskPrefix(list, [i], |list|);
    }
  }

  lemma Halve(n: nat, p: nat)
    ensures n * p == (n / 2) * (2 * p) + if n % 2 == 1 then p else 0
  {
    assert n == n % 2 + (n / 2) * 2;
    assert n * p == (n % 2 + (n / 2) * 2) * p;
  }

  /** As long as something is left of the mask, the loop is at one of its 32 bits. */
  lemma WithinMask(mask: nat, done: nat, rest: nat, i: nat)
    requires 1 <= i && rest > 0 && mask == done + rest * Pow2(i - 1) && mask < 0x1_0000_0000
    ensures i <= 32
  {
    if i > 32 {
      WordSize();
      Pow2Grows(32, i - 1);
      Multiple(rest, Pow2(i - 1));
    }
  }

  lemma WordSize()
    ensures Pow2(32) == 0x1_0000_0000
  {
    assert Pow2(8) == 256;
    Pow2Sum(8, 8);
    Pow2Sum(16, 16);
  }

  lemma {:induction false} Pow2Sum(a: nat, b: nat)
    ensures Pow2(a + b) == Pow2(a) * Pow2(b)
  {
    if a > 0 {
      Pow2Sum(a - 1, b);
    }
  }

  lemma Multiple(n: nat, p: nat)
    requires n > 0
    ensures n * p >= p
  {
    assert n * p == p + (n - 1) * p;
  }

  lemma {:induction false} MaskBelow(list: seq<int>, n: nat)
    requires Numbers(list) && n <= |list|
    ensures n > 0 ==> Bit(list[n - 1]) <= MaskUpTo(list, n) < Pow2(list[n - 1])
    decreases n
  {
    if n > 0 {
      MaskBelow(list, n - 1);
      if n > 1 {
        Pow2Grows(list[n - 2], list[n - 1] - 1);
      }
      assert Pow2(list[n - 1]) == 2 * Bit(list[n - 1]);
    }
  }

  lemma {:induction false} Pow2Grows(a: nat, b: nat)
    requires a <= b
    ensures Pow2(a) <= Pow2(b)
    decreases b
  {
    if a < b {
      Pow2Grows(a, b - 1);
    }
  }

  /** Lists with the same mask have the same last number, if any. */
  lemma {:induction false} SameTop(a: seq<int>, n: nat, b: seq<int>, m: nat)
    requires Numbers(a) && Numbers(b) && n <= |a| && m <= |b| && MaskUpTo(a, n) == MaskUpTo(b, m)
    ensures n == 0 <==> m == 0
    ensures n > 0 ==> a[n - 1] == b[m - 1]
  {
    MaskBelow(a, n);
    MaskBelow(b, m);
    if n > 0 && m > 0 {
      var x, y := a[n - 1], b[m - 1];
      if x < y {
        Pow2Grows(x, y - 1);
      } else if y < x {
        Pow2Grows(y, x - 1);
      }
    }
  }

  lemma {:induction false} SamePrefix(a: seq<int>, n: nat, b: seq<int>, m: nat)
    requires Numbers(a) && Numbers(b) && n <= |a| && m <= |b| && MaskUpTo(a, n) == MaskUpTo(b, m)
    ensures n == m && forall i :: 0 <= i < n ==> a[i] == b[i]
    decreases n
  {
    SameTop(a, n, b, m);
    if n > 0 {
      SamePrefix(a, n - 1, b, m - 1);
    }
  }

  /** No other list says the same mask. */
  lemma MaskDetermines(a: seq<int>, b: seq<int>)
    requires Numbers(a) && Numbers(b) && MaskOf(a) == MaskOf(b)
    ensures a == b
  {
    SamePrefix(a, |a|, b, |b|);
  }
}
