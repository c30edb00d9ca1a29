/**
  Revoking certificates in the CA's index file (raven/cert_revocation.py): the set of revoked
  serials a file stands for, the update that adds to it, and the cache that reads it.
*/
module RevocationIndex {
  import opened Wrappers
  import opened IndexText
  import opened Text

  // --- what an index file says ---

  /** The serial a line marks as revoked, if it does. */
  function RevokedBy(line: string): Option<string> {
    var fields := Split(line);
    if |fields| >= 4 && fields[0] == "R" then Normalize(Text(fields[3])) else None
  }

  function RevokedIn(lines: seq<string>): set<string> {
    set l | l in lines && RevokedBy(l).Some? :: RevokedBy(l).value
  }

  /** Every serial the text of an index marks as revoked. */
  function RevokedSet(text: string): set<string> {
    RevokedIn(ReadIndex(text))
  }

  /** A line of a certificate: six fields with a serial. */
  function SerialOf(line: string): Option<string> {
    var fields := Split(line);
    if |fields| >= 6 then Normalize(Text(fields[3])) else None
  }

  const REASONS: set<string> :=
    {"unspecified", "keyCompromise", "affiliationChanged", "superseded", "cessationOfOperation"}

  /** "" stands for a reason or subject that was not given. */
  datatype Request = Request(serial: SerialValue, notAfter: string, subject: string, reason: string)

  datatype RevokeError = InvalidSerial | InvalidReason

  /** What strftime writes: digits and a Z. */
  predicate TimeText(s: string) {
    s != "" && forall c | c in s :: ('0' <= c <= '9') || c == 'Z'
  }

  function ReasonOf(r: Request): string {
    if r.reason == "" then "unspecified" else r.reason
  }

  predicate ValidRequest(r: Request) {
    Normalize(r.serial).Some? && ReasonOf(r) in REASONS
  }

  function Requested(rs: seq<Request>): set<string> {
    set r | r in rs && Normalize(r.serial).Some? :: Normalize(r.serial).value
  }

  // --- the lines revoke writes ---

  function Stamp(now: string, reason: string): string {
    now + "," + reason
  }

  /** A new line for a certificate that has none. */
  function NewLine(now: string, r: Request, serial: string): string {
    Join(["R", r.notAfter, Stamp(now, ReasonOf(r)), IndexSerial(serial), "unknown", Subject(r.subject)])
  }

  /** The line of a certificate that is in the index but not revoked, revoked. */
  function RevokedLine(line: string, stamp: string): string
    requires |Split(line)| >= 3
  {
    Join(Split(line)[0 := "R"][2 := stamp])
  }

  predicate NoBreaks(s: string) {
    '\t' !in s && '\n' !in s && '\r' !in s
  }

  lemma StampHasNoBreaks(now: string, reason: string)
    requires TimeText(now) && reason in REASONS
    ensures NoBreaks(Stamp(now, reason)) && |Stamp(now, reason)| > 0
  {
    ReasonHasNoBreaks(reason);
    assert NoBreaks(now) && NoBreaks(",");
    NoBreaksConcat(now, ",");
    NoBreaksConcat(now + ",", reason);
  }

  lemma ReasonHasNoBreaks(reason: string)
    requires reason in REASONS
    ensures NoBreaks(reason)
  {
  }

  lemma NoBreaksConcat(a: string, b: string)
    requires NoBreaks(a) && NoBreaks(b)
    ensures NoBreaks(a + b)
  {
  }

  lemma {:induction false} JoinHasNoBreaks(fields: seq<string>)
    requires forall f | f in fields :: '\n' !in f && '\r' !in f
    ensures '\n' !in Join(fields) && '\r' !in Join(fields)
  {
    if |fields| == 1 {
      assert fields[0] in fields;
    } else if |fields| > 1 {
      assert fields[0] in fields;
      assert forall f | f in fields[1..] :: f in fields;
      JoinHasNoBreaks(fields[1..]);
    }
  }

  lemma {:induction false} SplitParts(s: string)
    ensures forall f, c | f in Split(s) && c in f :: c in s
  {
    if s != "" {
      SplitParts(s[1..]);
      var rest := Split(s[1..]);
      assert rest[0] in rest;
      assert s == [s[0]] + s[1..];
      forall f, c | f in Split(s) && c in f
        ensures c in s
      {
        if s[0] == '\t' {
          assert f == "" || f in rest;
        } else if f != [s[0]] + rest[0] {
          assert f in rest[1..];
          assert f in rest;
        }
      }
    }
  }

  /** A line whose first field is R is not blank. */
  lemma RLineIsNotBlank(fields: seq<string>)
    requires |fields| > 1 && fields[0] == "R"
    ensures !Blank(Join(fields))
  {
    assert Join(fields)[0] == 'R';
    assert Join(fields)[0] in Join(fields);
  }

  lemma NewFieldsHaveNoBreaks(now: string, r: Request, serial: string)
    requires TimeText(now) && TimeText(r.notAfter) && ReasonOf(r) in REASONS && Canonical(serial)
    ensures forall f | f in ["R", r.notAfter, Stamp(now, ReasonOf(r)), IndexSerial(serial), "unknown", Subject(r.subject)] :: NoBreaks(f)
  {
    StampHasNoBreaks(now, ReasonOf(r));
    var n: nat :| serial == Hex(n);
    HexIsUpper(n);
    IndexSerialCases(serial);
    assert NoBreaks(IndexSerial(serial));
    assert NoBreaks(Subject(r.subject));
    assert NoBreaks(r.notAfter);
    assert NoBreaks("R") && NoBreaks("unknown");
  }

  lemma NewLineRevokes(now: string, r: Request, serial: string)
    requires TimeText(now) && TimeText(r.notAfter) && ReasonOf(r) in REASONS && Canonical(serial)
    ensures var line := NewLine(now, r, serial);
            && CleanLine(line) && RevokedBy(line) == Some(serial) && SerialOf(line) == Some(serial)
            && Split(line) == ["R", r.notAfter, now + "," + ReasonOf(r), IndexSerial(serial), "unknown", Subject(r.subject)]
  {
    var fields := ["R", r.notAfter, Stamp(now, ReasonOf(r)), IndexSerial(serial), "unknown", Subject(r.subject)];
    NewFieldsHaveNoBreaks(now, r, serial);
    SplitJoin(fields);
    JoinHasNoBreaks(fields);
    RLineIsNotBlank(fields);
    NormalizeIndexSerial(serial);
    assert Split(NewLine(now, r, serial)) == fields && fields[3] == IndexSerial(serial);
  }

  lemma RevokedLineRevokes(line: string, stamp: string, serial: string)
    requires CleanLine(line) && SerialOf(line) == Some(serial) && NoBreaks(stamp)
    ensures var after := RevokedLine(line, stamp);
            && CleanLine(after) && RevokedBy(after) == Some(serial) && SerialOf(after) == Some(serial)
            && Split(after) == Split(line)[0 := "R"][2 := stamp]
  {
    var parts, fields := Split(line), Split(line)[0 := "R"][2 := stamp];
    SplitParts(line);
    assert NoBreaks("R");
    forall f | f in fields
      ensures NoBreaks(f)
    {
      assert f == "R" || f == stamp || f in parts;
    }
    SplitJoin(fields);
    JoinHasNoBreaks(fields);
    RLineIsNotBlank(fields);
    assert fields[3] == parts[3];
  }

  lemma RevokedInAppend(lines: seq<string>, line: string, serial: string)
    requires RevokedBy(line) == Some(serial)
    ensures RevokedIn(lines + [line]) == RevokedIn(lines) + {serial}
  {
  }

  lemma RevokedInUpdate(lines: seq<string>, i: nat, line: string, serial: string)
    requires i < |lines| && RevokedBy(lines[i]).None? && RevokedBy(line) == Some(serial)
    ensures RevokedIn(lines[i := line]) == RevokedIn(lines) + {serial}
  {
    var after := lines[i := line];
    assert after[i] == line;
    forall l | l in lines && RevokedBy(l).Some?
      ensures l in after
    {
      var k :| 0 <= k < |lines| && lines[k] == l;
      assert after[k] == l;
    }
    forall l | l in after && RevokedBy(l).Some?
      ensures l in lines || l == line
    {
      var k :| 0 <= k < |after| && after[k] == l;
    }
  }

  // --- an index as openssl and revoke write it ---

  /** A line that is not revoked has a one letter state and an empty revocation field. */
  predicate PlainLine(line: string) {
    var fields := Split(line);
    |fields| >= 6 ==> fields[0] == "R" || (|fields[0]| <= 1 && fields[2] == "")
  }

  /** The text is what printing its lines gives, and its lines are plain. */
  ghost predicate Tidy(text: string) {
    text == PrintIndex(ReadIndex(text)) && AllPlain(ReadIndex(text))
  }

  lemma {:induction false} JoinLength(fields: seq<string>, i: nat, f: string)
    requires i < |fields|
    ensures |Join(fields[i := f])| == |Join(fields)| - |fields[i]| + |f|
  {
    var after := fields[i := f];
    if |fields| > 1 {
      if i > 0 {
        assert after[1..] == fields[1..][i - 1 := f];
        JoinLength(fields[1..], i - 1, f);
      } else {
        assert after[1..] == fields[1..];
      }
    }
  }

  lemma RevokedLineGrows(line: string, stamp: string)
    requires |Split(line)| >= 6 && PlainLine(line) && Split(line)[0] != "R" && stamp != ""
    ensures |RevokedLine(line, stamp)| > |line|
  {
    JoinSplit(line);
    JoinLength(Split(line), 0, "R");
    JoinLength(Split(line)[0 := "R"], 2, stamp);
  }

  lemma {:induction false} PrintUpdate(lines: seq<string>, i: nat, line: string)
    requires i < |lines|
    ensures |PrintIndex(lines[i := line])| == |PrintIndex(lines)| - |lines[i]| + |line|
  {
    if i == 0 {
      assert lines[0 := line][1..] == lines[1..];
    } else {
      assert lines[i := line][1..] == lines[1..][i - 1 := line];
      PrintUpdate(lines[1..], i - 1, line);
    }
  }

  lemma {:induction false} PrintAppend(lines: seq<string>, line: string)
    ensures |PrintIndex(lines + [line])| == |PrintIndex(lines)| + |line| + 1
  {
    if lines == [] {
      assert [] + [line] == [line] && [line][1..] == [];
    } else {
      assert (lines + [line])[1..] == lines[1..] + [line];
      PrintAppend(lines[1..], line);
    }
  }

  // --- revoke ---

  class IndexFile {
    var text: string

    constructor (text: string)
      ensures this.text == text
    {
      this.text := text;
    }
  }

  /** by_serial: for each serial, a line of six fields or more that carries it. */
  ghost predicate Located(bySerial: map<string, nat>, lines: seq<string>) {
    forall s | s in bySerial :: bySerial[s] < |lines| && SerialOf(lines[bySerial[s]]) == Some(s)
  }

  ghost predicate Covers(bySerial: map<string, nat>, lines: seq<string>, k: nat) {
    forall j | 0 <= j < k && j < |lines| && SerialOf(lines[j]).Some? :: SerialOf(lines[j]).value in bySerial
  }

  lemma LocateOne(bySerial: map<string, nat>, lines: seq<string>, i: nat, serial: string)
    requires Located(bySerial, lines) && Covers(bySerial, lines, i)
    requires i < |lines| && SerialOf(lines[i]) == Some(serial)
    ensures Located(bySerial[serial := i], lines) && Covers(bySerial[serial := i], lines, i + 1)
  {
  }

  method LocateSerials(lines: seq<string>) returns (bySerial: map<string, nat>)
    ensures Located(bySerial, lines) && Covers(bySerial, lines, |lines|)
  {
    bySerial := map[];
    for i := 0 to |lines|
      invariant Located(bySerial, lines) && Covers(bySerial, lines, i)
    {
      var serial := SerialOf(lines[i]);
      if serial.Some? {
        LocateOne(bySerial, lines, i, serial.value);
        bySerial := bySerial[serial.value := i];
      }
    }
  }

  /** Every revoked line is a full one, and no serial is on two lines. */
  ghost predicate OneLineEach(lines: seq<string>) {
    && (forall i | 0 <= i < |lines| && RevokedBy(lines[i]).Some? :: SerialOf(lines[i]) == RevokedBy(lines[i]))
    && (forall i, j | 0 <= i < j < |lines| && SerialOf(lines[i]).Some? :: SerialOf(lines[i]) != SerialOf(lines[j]))
  }

  /** Looking a revoked serial up finds a revoked line. */
  ghost predicate Faithful(bySerial: map<string, nat>, lines: seq<string>) {
    Located(bySerial, lines)
    && forall s | s in RevokedIn(lines) :: s in bySerial && Split(lines[bySerial[s]])[0] == "R"
  }

  lemma LocatedIsFaithful(bySerial: map<string, nat>, lines: seq<string>)
    requires Located(bySerial, lines) && Covers(bySerial, lines, |lines|) && OneLineEach(lines)
    ensures Faithful(bySerial, lines)
  {
  }

  /** The serials returned so far are the requested ones that were not revoked at the start, once each. */
  ghost predicate NewOnly(start: seq<string>, added: set<string>, revoked: seq<string>) {
    && (forall s :: s in revoked <==> s in added && s !in RevokedIn(start))
    && (forall i, j | 0 <= i < j < |revoked| :: revoked[i] != revoked[j])
  }

  /** The progress of revoke's loop: from the lines read to the lines so far. */
  ghost predicate Progress(start: seq<string>, lines: seq<string>, added: set<string>, revoked: seq<string>) {
    && AllClean(lines)
    && RevokedIn(lines) == RevokedIn(start) + added
    && (revoked == [] ==> lines == start)
    && (forall s | s in revoked :: s in added)
    && (AllPlain(start) ==>
          AllPlain(lines) && (revoked != [] ==> |PrintIndex(lines)| > |PrintIndex(start)|))
  }

  ghost predicate AllClean(lines: seq<string>) {
    forall i | 0 <= i < |lines| :: CleanLine(lines[i])
  }

  ghost predicate AllPlain(lines: seq<string>) {
    forall i | 0 <= i < |lines| :: PlainLine(lines[i])
  }

  /** A certificate already revoked: nothing changes. */
  lemma SkipProgress(start: seq<string>, lines: seq<string>, added: set<string>, revoked: seq<string>, i: nat, serial: string)
    requires Progress(start, lines, added, revoked) && i < |lines|
    requires SerialOf(lines[i]) == Some(serial) && Split(lines[i])[0] == "R"
    ensures Progress(start, lines, added + {serial}, revoked)
  {
    assert RevokedBy(lines[i]) == Some(serial);
    assert lines[i] in lines;
    assert serial in RevokedIn(lines);
    assert RevokedIn(start) + (added + {serial}) == RevokedIn(lines);
  }

  /** What a revocation puts in the place of a certificate's line. */
  ghost predicate Replaces(line: string, before: string, serial: string) {
    && CleanLine(line) && RevokedBy(line) == Some(serial) && SerialOf(line) == Some(serial) && Split(line)[0] == "R"
    && (PlainLine(before) ==> |line| > |before|)
  }

  lemma RevokedLineReplaces(before: string, stamp: string, serial: string)
    requires CleanLine(before) && SerialOf(before) == Some(serial) && Split(before)[0] != "R"
    requires NoBreaks(stamp) && stamp != ""
    ensures Replaces(RevokedLine(before, stamp), before, serial)
    ensures Split(RevokedLine(before, stamp)) == Split(before)[0 := "R"][2 := stamp]
  {
    RevokedLineRevokes(before, stamp, serial);
    if PlainLine(before) {
      RevokedLineGrows(before, stamp);
    }
  }

  /** A certificate that is listed but not revoked: its line changes. */
  lemma ChangeProgress(start: seq<string>, lines: seq<string>, added: set<string>, revoked: seq<string>, i: nat,
                       serial: string, line: string)
    requires Progress(start, lines, added, revoked) && i < |lines|
    requires Split(lines[i])[0] != "R" && Replaces(line, lines[i], serial)
    ensures Progress(start, lines[i := line], added + {serial}, revoked + [serial])
    ensures RevokedIn(lines[i := line]) == RevokedIn(lines) + {serial}
  {
    RevokedInUpdate(lines, i, line, serial);
    assert RevokedIn(start) + (added + {serial}) == RevokedIn(lines) + {serial};
    if AllPlain(start) {
      PrintUpdate(lines, i, line);
    }
  }

  /** A certificate that is not listed: a line is added. */
  lemma AppendProgress(start: seq<string>, lines: seq<string>, added: set<string>, revoked: seq<string>,
                       serial: string, now: string, r: Request)
    requires Progress(start, lines, added, revoked)
    requires TimeText(now) && TimeText(r.notAfter) && ReasonOf(r) in REASONS && Canonical(serial)
    ensures Progress(start, lines + [NewLine(now, r, serial)], added + {serial}, revoked + [serial])
    ensures SerialOf(NewLine(now, r, serial)) == Some(serial) && Split(NewLine(now, r, serial))[0] == "R"
    ensures RevokedIn(lines + [NewLine(now, r, serial)]) == RevokedIn(lines) + {serial}
    ensures Split(NewLine(now, r, serial)) == ["R", r.notAfter, now + "," + ReasonOf(r), IndexSerial(serial), "unknown", Subject(r.subject)]
  {
    var line := NewLine(now, r, serial);
    NewLineRevokes(now, r, serial);
    RevokedInAppend(lines, line, serial);
    PrintAppend(lines, line);
    assert RevokedIn(start) + (added + {serial}) == RevokedIn(lines) + {serial};
  }

  /** A line changed or added for one serial keeps the lookup faithful and the result exact. */
  lemma StillFaithful(start: seq<string>, lines: seq<string>, lines': seq<string>, added: set<string>,
                      bySerial: map<string, nat>, bySerial': map<string, nat>, revoked: seq<string>, serial: string)
    requires Faithful(bySerial, lines) && NewOnly(start, added, revoked)
    requires RevokedIn(lines) == RevokedIn(start) + added && RevokedIn(lines') == RevokedIn(lines) + {serial}
    requires serial in bySerial ==> Split(lines[bySerial[serial]])[0] != "R"
    requires Located(bySerial', lines') && serial in bySerial' && Split(lines'[bySerial'[serial]])[0] == "R"
    requires forall s | s in bySerial && s != serial ::
               s in bySerial' && bySerial'[s] == bySerial[s] && lines'[bySerial'[s]] == lines[bySerial[s]]
    ensures Faithful(bySerial', lines') && NewOnly(start, added + {serial}, revoked + [serial])
  {
    assert serial !in RevokedIn(lines);
    forall s | s in RevokedIn(lines')
      ensures s in bySerial' && Split(lines'[bySerial'[s]])[0] == "R"
    {
      if s != serial {
        assert s in RevokedIn(lines);
      }
    }
    forall s
      ensures s in revoked + [serial] <==> s in added + {serial} && s !in RevokedIn(start)
    {
    }
  }

  /** Everything the loop keeps, for the line changed or added at position i. */
  lemma LineRevoked(start: seq<string>, lines: seq<string>, lines': seq<string>, added: set<string>,
                    bySerial: map<string, nat>, bySerial': map<string, nat>, revoked: seq<string>, serial: string, i: nat)
    requires bySerial' == bySerial[serial := i] && Located(bySerial, lines) && i < |lines'|
    requires RevokedIn(lines) == RevokedIn(start) + added && RevokedIn(lines') == RevokedIn(lines) + {serial}
    requires if i < |lines| then |lines'| == |lines| && serial in bySerial && bySerial[serial] == i && Split(lines[i])[0] != "R"
             else i == |lines| && |lines'| == |lines| + 1 && serial !in bySerial
    requires forall j | 0 <= j < |lines| && j != i :: lines'[j] == lines[j]
    requires SerialOf(lines'[i]) == Some(serial) && Split(lines'[i])[0] == "R"
    ensures Located(bySerial', lines')
    ensures Faithful(bySerial, lines) && NewOnly(start, added, revoked) ==>
              Faithful(bySerial', lines') && NewOnly(start, added + {serial}, revoked + [serial])
  {
    OtherLinesStay(lines, lines', bySerial, serial, i);
    if Faithful(bySerial, lines) && NewOnly(start, added, revoked) {
      StillFaithful(start, lines, lines', added, bySerial, bySerial', revoked, serial);
    }
  }

  /** A line located before, and not for this serial, is where it was. */
  lemma OtherLinesStay(lines: seq<string>, lines': seq<string>, bySerial: map<string, nat>, serial: string, i: nat)
    requires Located(bySerial, lines) && i < |lines'| && |lines| <= |lines'| && SerialOf(lines'[i]) == Some(serial)
    requires if i < |lines| then serial in bySerial && bySerial[serial] == i else i == |lines|
    requires forall j | 0 <= j < |lines| && j != i :: lines'[j] == lines[j]
    ensures Located(bySerial[serial := i], lines')
    ensures forall s | s in bySerial && s != serial :: bySerial[s] != i && lines'[bySerial[s]] == lines[bySerial[s]]
  {
    forall s | s in bySerial && s != serial
      ensures bySerial[s] != i && lines'[bySerial[s]] == lines[bySerial[s]]
    {
      assert SerialOf(lines[bySerial[s]]) == Some(s);
      if i < |lines| {
        assert SerialOf(lines[i]) == Some(serial);
      }
    }
  }

  lemma SameMap(m: map<string, nat>, key: string)
    requires key in m
    ensures m[key := m[key]] == m
  {
  }

  lemma ChangeLine(start: seq<string>, lines: seq<string>, line: string, added: set<string>, bySerial: map<string, nat>,
                   revoked: seq<string>, i: nat, serial: string)
    requires Located(bySerial, lines) && Progress(start, lines, added, revoked)
    requires serial in bySerial && i == bySerial[serial] && Split(lines[i])[0] != "R" && Replaces(line, lines[i], serial)
    ensures Located(bySerial, lines[i := line]) && Progress(start, lines[i := line], added + {serial}, revoked + [serial])
    ensures Faithful(bySerial, lines) && NewOnly(start, added, revoked) ==>
              Faithful(bySerial, lines[i := line]) && NewOnly(start, added + {serial}, revoked + [serial])
  {
    SameMap(bySerial, serial);
    ChangeProgress(start, lines, added, revoked, i, serial, line);
    LineRevoked(start, lines, lines[i := line], added, bySerial, bySerial, revoked, serial, i);
  }

  lemma AppendLine(start: seq<string>, lines: seq<string>, lines': seq<string>, added: set<string>, bySerial: map<string, nat>,
                   revoked: seq<string>, serial: string, now: string, r: Request)
    requires Located(bySerial, lines) && Progress(start, lines, added, revoked) && serial !in bySerial
    requires TimeText(now) && TimeText(r.notAfter) && ReasonOf(r) in REASONS && Canonical(serial)
    requires lines' == lines + [NewLine(now, r, serial)]
    ensures Located(bySerial[serial := |lines|], lines') && Progress(start, lines', added + {serial}, revoked + [serial])
    ensures Split(lines'[|lines|]) == ["R", r.notAfter, now + "," + ReasonOf(r), IndexSerial(serial), "unknown", Subject(r.subject)]
    ensures Faithful(bySerial, lines) && NewOnly(start, added, revoked) ==>
              Faithful(bySerial[serial := |lines|], lines') && NewOnly(start, added + {serial}, revoked + [serial])
  {
    AppendProgress(start, lines, added, revoked, serial, now, r);
    LineRevoked(start, lines, lines', added, bySerial, bySerial[serial := |lines|], revoked, serial, |lines|);
  }

  // --- the lines before and after ---

  /** A certificate's line with its status set to revoked, at the time and for the reason in the stamp. */
  ghost predicate Marked(before: string, after: string, serial: Option<string>, stamp: string) {
    && serial.Some? && SerialOf(before) == serial && Split(before)[0] != "R"
    && Split(after) == Split(before)[0 := "R"][2 := stamp]
  }

  /** A line for a certificate none of these lines is about. */
  ghost predicate Added(lines: seq<string>, after: string, now: string, q: Request) {
    && Normalize(q.serial).Some? && (forall j | 0 <= j < |lines| :: SerialOf(lines[j]) != Normalize(q.serial))
    && Split(after) == ["R", q.notAfter, now + "," + ReasonOf(q), IndexSerial(Normalize(q.serial).value), "unknown", Subject(q.subject)]
  }

  ghost predicate MarkedBy(before: string, after: string, now: string, requests: seq<Request>) {
    exists q | q in requests :: Marked(before, after, Normalize(q.serial), now + "," + ReasonOf(q))
  }

  ghost predicate AddedBy(lines: seq<string>, after: string, now: string, requests: seq<Request>) {
    exists q | q in requests :: Added(lines, after, now, q)
  }

  /** Since the start some lines were marked and some added, each for one of the requests; the others are as they were. */
  ghost predicate Written(start: seq<string>, lines: seq<string>, now: string, requests: seq<Request>) {
    && |start| <= |lines|
    && (forall i | 0 <= i < |start| ::
          lines[i] == start[i] || MarkedBy(start[i], lines[i], now, requests))
    && (forall i | |start| <= i < |lines| :: AddedBy(start, lines[i], now, requests))
  }

  /** What one request may do to the lines. */
  ghost predicate OneRequest(lines: seq<string>, lines': seq<string>, bySerial: map<string, nat>, bySerial': map<string, nat>,
                             now: string, r: Request)
    requires ValidRequest(r)
  {
    var serial := Normalize(r.serial).value;
    || (lines' == lines && bySerial' == bySerial)
    || (serial in bySerial && bySerial' == bySerial && bySerial[serial] < |lines| == |lines'|
        && (forall j | 0 <= j < |lines| && j != bySerial[serial] :: lines'[j] == lines[j])
        && Marked(lines[bySerial[serial]], lines'[bySerial[serial]], Some(serial), now + "," + ReasonOf(r)))
    || (serial !in bySerial && bySerial' == bySerial[serial := |lines|] && |lines'| == |lines| + 1 && lines'[..|lines|] == lines
        && Split(lines'[|lines|]) == ["R", r.notAfter, now + "," + ReasonOf(r), IndexSerial(serial), "unknown", Subject(r.subject)])
  }

  lemma MarkedGrow(start: seq<string>, lines: seq<string>, lines': seq<string>, bySerial: map<string, nat>, bySerial': map<string, nat>,
                   now: string, requests: seq<Request>, k: nat, i: nat)
    requires k < |requests| && ValidRequest(requests[k]) && Written(start, lines, now, requests[..k]) && i < |start|
    requires OneRequest(lines, lines', bySerial, bySerial', now, requests[k])
    ensures i < |lines'|
    ensures lines'[i] == start[i]
            || MarkedBy(start[i], lines'[i], now, requests[..k + 1])
  {
    var r := requests[k];
    assert requests[..k + 1] == requests[..k] + [r] && r in requests[..k + 1];
    if lines'[i] == lines[i] {
      if lines[i] != start[i] {
        var q :| q in requests[..k] && Marked(start[i], lines[i], Normalize(q.serial), now + "," + ReasonOf(q));
        assert q in requests[..k + 1];
      }
    } else {
      assert Split(lines[i])[0] != "R";
      assert Marked(start[i], lines'[i], Normalize(r.serial), now + "," + ReasonOf(r));
    }
  }

  lemma AddedGrow(start: seq<string>, lines: seq<string>, lines': seq<string>, bySerial: map<string, nat>, bySerial': map<string, nat>,
                  now: string, requests: seq<Request>, k: nat, i: nat)
    requires k < |requests| && ValidRequest(requests[k]) && Written(start, lines, now, requests[..k]) && |start| <= i < |lines'|
    requires Covers(bySerial, start, |start|) && OneRequest(lines, lines', bySerial, bySerial', now, requests[k])
    ensures AddedBy(start, lines'[i], now, requests[..k + 1])
  {
    var r := requests[k];
    assert requests[..k + 1] == requests[..k] + [r] && r in requests[..k + 1];
    if i < |lines| {
      var q :| q in requests[..k] && Added(start, lines[i], now, q);
      assert q in requests[..k + 1] && lines'[i] == lines[i];
    } else {
      assert Added(start, lines'[i], now, r);
    }
  }

  lemma WrittenGrows(start: seq<string>, lines: seq<string>, lines': seq<string>, bySerial: map<string, nat>, bySerial': map<string, nat>,
                     now: string, requests: seq<Request>, k: nat)
    requires k < |requests| && ValidRequest(requests[k]) && Written(start, lines, now, requests[..k])
    requires Covers(bySerial, start, |start|) && OneRequest(lines, lines', bySerial, bySerial', now, requests[k])
    ensures Written(start, lines', now, requests[..k + 1]) && Covers(bySerial', start, |start|)
  {
    forall i | 0 <= i < |start|
      ensures lines'[i] == start[i]
              || MarkedBy(start[i], lines'[i], now, requests[..k + 1])
    {
      MarkedGrow(start, lines, lines', bySerial, bySerial', now, requests, k, i);
    }
    forall i | |start| <= i < |lines'|
      ensures AddedBy(start, lines'[i], now, requests[..k + 1])
    {
      AddedGrow(start, lines, lines', bySerial, bySerial', now, requests, k, i);
    }
  }

  /** One valid request: nothing to do, a line to change, or a line to add. */
  method RevokeOne(ghost start: seq<string>, lines: seq<string>, bySerial: map<string, nat>, now: string, r: Request,
                   ghost added: set<string>, revoked: seq<string>)
    returns (lines': seq<string>, bySerial': map<string, nat>, revoked': seq<string>)
    requires TimeText(now) && TimeText(r.notAfter) && ValidRequest(r)
    requires Located(bySerial, lines) && Progress(start, lines, added, revoked)
    ensures Located(bySerial', lines')
    ensures OneRequest(lines, lines', bySerial, bySerial', now, r)
    ensures Progress(start, lines', added + {Normalize(r.serial).value}, revoked')
    ensures Faithful(bySerial, lines) && NewOnly(start, added, revoked) ==>
              Faithful(bySerial', lines') && NewOnly(start, added + {Normalize(r.serial).value}, revoked')
  {
    var serial, stamp := Normalize(r.serial).value, Stamp(now, ReasonOf(r));
    StampHasNoBreaks(now, ReasonOf(r));
    NormalizeIsIdempotent(r.serial);
    if serial in bySerial {
      var i := bySerial[serial];
      if Split(lines[i])[0] == "R" {
        SkipProgress(start, lines, added, revoked, i, serial);
        SkipIsFaithful(start, lines, added, revoked, i, serial);
        return lines, bySerial, revoked;
      }
      var line := RevokedLine(lines[i], stamp);
      RevokedLineReplaces(lines[i], stamp, serial);
      ChangeLine(start, lines, line, added, bySerial, revoked, i, serial);
      lines', bySerial', revoked' := lines[i := line], bySerial, revoked + [serial];
    } else {
      lines', bySerial', revoked' := lines + [NewLine(now, r, serial)], bySerial[serial := |lines|], revoked + [serial];
      AppendLine(start, lines, lines', added, bySerial, revoked, serial, now, r);
    }
  }

  lemma SkipIsFaithful(start: seq<string>, lines: seq<string>, added: set<string>, revoked: seq<string>, i: nat, serial: string)
    requires Progress(start, lines, added, revoked) && i < |lines|
    requires SerialOf(lines[i]) == Some(serial) && Split(lines[i])[0] == "R"
    ensures NewOnly(start, added, revoked) ==> NewOnly(start, added + {serial}, revoked)
  {
    assert RevokedBy(lines[i]) == Some(serial);
    assert lines[i] in lines;
    assert serial in RevokedIn(lines);
  }

  /**
    revoke: all or nothing. On success the revoked set is the old one plus exactly the requested
    serials; on an invalid request the file is as it was. Reading the written file back gives the
    written lines, and a tidy index stays tidy and strictly grows whenever it is written.
  */
  method Revoke(index: IndexFile, now: string, requests: seq<Request>) returns (r: Result<seq<string>, RevokeError>)
    requires TimeText(now) && forall q | q in requests :: TimeText(q.notAfter)
    modifies index
    ensures r.Success? <==> forall q | q in requests :: ValidRequest(q)
    ensures r.Failure? ==> index.text == old(index.text)
    ensures r.Success? ==> RevokedSet(index.text) == RevokedSet(old(index.text)) + Requested(requests)
    ensures r.Success? ==> forall s | s in r.value :: s in Requested(requests)
    ensures r.Success? ==>
              var before, after := ReadIndex(old(index.text)), ReadIndex(index.text);
              && |before| <= |after|
              && (forall i | 0 <= i < |before| :: after[i] == before[i] ||
                    exists q | q in requests ::
                      && Normalize(q.serial).Some? && SerialOf(before[i]) == Normalize(q.serial) && Split(before[i])[0] != "R"
                      && Split(after[i]) == Split(before[i])[0 := "R"][2 := now + "," + if q.reason == "" then "unspecified" else q.reason])
              && (forall i | |before| <= i < |after| ::
                    exists q | q in requests ::
                      && Normalize(q.serial).Some? && (forall j | 0 <= j < |before| :: SerialOf(before[j]) != Normalize(q.serial))
                      && Split(after[i]) == ["R", q.notAfter, now + "," + (if q.reason == "" then "unspecified" else q.reason),
                                             IndexSerial(Normalize(q.serial).value), "unknown", Subject(q.subject)])
    ensures r.Success? && OneLineEach(ReadIndex(old(index.text))) ==>
              NewOnly(ReadIndex(old(index.text)), Requested(requests), r.value)
    ensures r == Success([]) ==> index.text == old(index.text)
    ensures Tidy(old(index.text)) ==> Tidy(index.text)
    ensures Tidy(old(index.text)) && index.text != old(index.text) ==> |index.text| > |old(index.text)|
  {
    ReadIsClean(index.text);
    var lines := ReadIndex(index.text);
    var done := RevokeAll(lines, now, requests);
    if done.Failure? {
      return Failure(done.error);
    }
    ReadPrint(done.value.0);
    if done.value.1 != [] {
      index.text := PrintIndex(done.value.0);
    }
    r := Success(done.value.1);
  }

  /** The loop of revoke: the lines afterwards and the serials newly revoked. */
  method RevokeAll(start: seq<string>, now: string, requests: seq<Request>)
    returns (r: Result<(seq<string>, seq<string>), RevokeError>)
    requires TimeText(now) && (forall q | q in requests :: TimeText(q.notAfter)) && AllClean(start)
    ensures r.Success? <==> forall q | q in requests :: ValidRequest(q)
    ensures r.Success? ==> Progress(start, r.value.0, Requested(requests), r.value.1) && Written(start, r.value.0, now, requests)
    ensures r.Success? && OneLineEach(start) ==> NewOnly(start, Requested(requests), r.value.1)
  {
    var lines := start;
    var bySerial := LocateSerials(lines);
    if OneLineEach(lines) {
      LocatedIsFaithful(bySerial, lines);
    }
    var revoked: seq<string> := [];
    for k := 0 to |requests|
      invariant Located(bySerial, lines)
      invariant Progress(start, lines, Requested(requests[..k]), revoked)
      invariant Written(start, lines, now, requests[..k]) && Covers(bySerial, start, |start|)
      invariant OneLineEach(start) ==> Faithful(bySerial, lines) && NewOnly(start, Requested(requests[..k]), revoked)
      invariant forall q | q in requests[..k] :: ValidRequest(q)
    {
      var q := requests[k];
      assert q in requests;
      if Normalize(q.serial).None? {
        return Failure(InvalidSerial);
      }
      if ReasonOf(q) !in REASONS {
        return Failure(InvalidReason);
      }
      RequestedNext(requests, k);
      ghost var were, at := lines, bySerial;
      lines, bySerial, revoked := RevokeOne(start, lines, bySerial, now, q, Requested(requests[..k]), revoked);
      WrittenGrows(start, were, lines, at, bySerial, now, requests, k);
    }
    assert requests[..|requests|] == requests;
    return Success((lines, revoked));
  }

  lemma RequestedNext(requests: seq<Request>, k: nat)
    requires k < |requests| && Normalize(requests[k].serial).Some?
    ensures Requested(requests[..k + 1]) == Requested(requests[..k]) + {Normalize(requests[k].serial).value}
  {
  }

  // --- the cache ---

  /** The texts an index file has had, oldest first, each longer than the one before and revoking no less. */
  ghost predicate Grows(history: seq<string>) {
    && history != []
    && forall i, j | 0 <= i < j < |history| :: |history[i]| < |history[j]| && RevokedSet(history[i]) <= RevokedSet(history[j])
  }

  function Latest(history: seq<string>): string
    requires history != []
  {
    history[|history| - 1]
  }

  /** _revoked_cache of one process: keyed by the file's mtime and size. */
  class RevokedCache {
    var key: Option<(int, nat)>
    var serials: set<string>

    constructor ()
      ensures key == None
    {
      key, serials := None, {};
    }

    /** The cached set was read from the file when it had the cached size, or later. */
    ghost predicate Current(history: seq<string>)
      requires history != []
      reads this
    {
      key.Some? ==> exists i :: 0 <= i < |history| && |history[i]| == key.value.1
                                && RevokedSet(history[i]) <= serials <= RevokedSet(Latest(history))
    }

    /**
      revoked_serials, whatever modification time the file has. It takes the file's size first and reads the
      file after that; at says which text the file had at the first, and it may have grown by the second.
    */
    method RevokedSerials(index: IndexFile, ghost history: seq<string>, ghost at: nat, mtime: int, size: nat) returns (r: set<string>)
      requires Grows(history) && index.text == Latest(history) && Current(history)
      requires at < |history| && size == |history[at]|
      modifies this
      ensures RevokedSet(history[at]) <= r <= RevokedSet(index.text) && Current(history)
      ensures history[at] == index.text ==> r == RevokedSet(index.text)
    {
      assert at < |history| - 1 ==> RevokedSet(history[at]) <= RevokedSet(Latest(history));
      if key == Some((mtime, size)) {
        ghost var i :| 0 <= i < |history| && |history[i]| == size && RevokedSet(history[i]) <= serials <= RevokedSet(Latest(history));
        assert i == at;
        return serials;
      }
      serials := RevokedSet(index.text);
      key := Some((mtime, size));
      assert |history[at]| == size && RevokedSet(history[at]) <= serials;
      r := serials;
    }
  }

  /** A revocation, by any process, leaves every process's cache current: the file grows or stays. */
  method RevokeKeepsCaches(index: IndexFile, ghost history: seq<string>, cache: RevokedCache, now: string, requests: seq<Request>)
    returns (r: Result<seq<string>, RevokeError>, ghost history': seq<string>)
    requires TimeText(now) && forall q | q in requests :: TimeText(q.notAfter)
    requires Tidy(index.text) && Grows(history) && index.text == Latest(history) && cache.Current(history)
    modifies index
    ensures Tidy(index.text) && history <= history' && Grows(history') && index.text == Latest(history') && cache.Current(history')
  {
    r := Revoke(index, now, requests);
    history' := history;
    if index.text != Latest(history) {
      history' := history + [index.text];
      GrownBy(history, index.text);
    }
    if cache.key.Some? {
      ghost var i :| 0 <= i < |history| && |history[i]| == cache.key.value.1
               && RevokedSet(history[i]) <= cache.serials <= RevokedSet(Latest(history));
      assert history'[i] == history[i];
    }
  }

  lemma GrownBy(history: seq<string>, text: string)
    requires Grows(history) && |Latest(history)| < |text| && RevokedSet(Latest(history)) <= RevokedSet(text)
    ensures Grows(history + [text])
  {
    forall i | 0 <= i < |history|
      ensures |history[i]| < |text| && RevokedSet(history[i]) <= RevokedSet(text)
    {
      assert i == |history| - 1 || RevokedSet(history[i]) <= RevokedSet(Latest(history));
    }
  }
}
