/**
 The hash-chained, bounded event log (internal/control/events.go).
 Main results: the head hash commits to the whole content, unless two entries of the logs compared collide; in
 every run the log is the latest window of an unbounded chain; verification holds exactly while nothing was evicted.
 */
module EventLog {
  import opened Wrappers
  import opened Text
  import opened JsonText
  import opened CanonicalJson

  /** A log entry. Time is an instant, with 0 for the unset time. */
  datatype Event = Event(
    index: int, time: int, kind: string, message: string, fields: Json, prevHash: string, hash: string)

  /** What is digested for one entry. */
  datatype Payload = Payload(index: int, time: int, kind: string, message: string, fields: Json, prevHash: string)

  /** The hexadecimal SHA-256 of the JSON form of a payload. */
  type Digest = Payload -> string

  ghost predicate HexOutput(d: Digest) {
    forall p, i :: 0 <= i < |d(p)| ==> IsHexDigit(d(p)[i])
  }

  predicate IsHexDigit(c: char) {
    '0' <= c <= '9' || 'a' <= c <= 'f'
  }

  function PayloadOf(e: Event, prevHash: string): Payload {
    Payload(e.index, e.time, TrimSpace(e.kind), TrimSpace(e.message), e.fields, TrimSpace(prevHash))
  }

  function EventHash(d: Digest, e: Event, prevHash: string): (h: string)
    ensures h != ""
  {
    "sha256:" + d(PayloadOf(e, prevHash))
  }

  lemma EventHashTrimmed(d: Digest, e: Event, prevHash: string)
    requires HexOutput(d)
    ensures Trimmed(EventHash(d, e, prevHash))
  {
    var p := PayloadOf(e, prevHash);
    var h := EventHash(d, e, prevHash);
    assert h[0] == 's';
    assert d(p) != "" ==> h[|h| - 1] == d(p)[|d(p)| - 1];
  }

  // ------------------------------------------------------------ verification

  /** The hash the verifier arrives at after the first `n` entries, recomputed from their content. */
  function ChainHash(d: Digest, es: seq<Event>, n: nat): (h: string)
    requires n <= |es|
    ensures h == "" <==> n == 0
  {
    if n == 0 then "" else EventHash(d, es[n - 1], ChainHash(d, es, n - 1))
  }

  datatype Reason = IndexMismatch | PrevHashMismatch | HashMismatch

  datatype Violation = Violation(index: int, reason: Reason)

  datatype Report = Report(valid: bool, checked: nat, lastHash: string, violations: seq<Violation>)

  ghost predicate Faulty(d: Digest, es: seq<Event>, i: nat, reason: Reason)
    requires i < |es|
  {
    match reason
    case IndexMismatch => es[i].index != i + 1
    case PrevHashMismatch => TrimSpace(es[i].prevHash) != TrimSpace(ChainHash(d, es, i))
    case HashMismatch => TrimSpace(es[i].hash) != ChainHash(d, es, i + 1)
  }

  /** Consecutive indices from 1, each entry linked to and sealed over the one before. */
  ghost predicate Accepts(d: Digest, es: seq<Event>) {
    forall i, reason :: 0 <= i < |es| ==> !Faulty(d, es, i, reason)
  }

  /** The violation list of the first `n` entries names exactly their faults. */
  ghost predicate Reports(d: Digest, es: seq<Event>, n: nat, vs: seq<Violation>)
    requires n <= |es|
  {
    && (forall i, reason :: 0 <= i < n && Faulty(d, es, i, reason) ==> Violation(es[i].index, reason) in vs)
    && (forall v :: v in vs ==> exists i :: 0 <= i < n && es[i].index == v.index && Faulty(d, es, i, v.reason))
  }

  /** The three checks made on one entry. */
  method CheckEntry(d: Digest, e: Event, index: int, prevHash: string) returns (vs: seq<Violation>)
    ensures forall v :: v in vs <==> v.index == e.index && match v.reason
      case IndexMismatch => e.index != index
      case PrevHashMismatch => TrimSpace(e.prevHash) != TrimSpace(prevHash)
      case HashMismatch => TrimSpace(e.hash) != EventHash(d, e, prevHash)
  {
    hide TrimSpace;
    hide EventHash;
    vs := [];
    if e.index != index { vs := vs + [Violation(e.index, IndexMismatch)]; }
    if TrimSpace(e.prevHash) != TrimSpace(prevHash) { vs := vs + [Violation(e.index, PrevHashMismatch)]; }
    if TrimSpace(e.hash) != EventHash(d, e, prevHash) { vs := vs + [Violation(e.index, HashMismatch)]; }
  }

  method Verify(d: Digest, es: seq<Event>) returns (report: Report)
    ensures report.valid <==> Accepts(d, es)
    ensures report.checked == |es| && report.lastHash == ChainHash(d, es, |es|)
    ensures Reports(d, es, |es|, report.violations)
  {
    hide Accepts;
    hide TrimSpace;
    hide EventHash;
    var valid, prevHash, violations := true, "", [];
    for i := 0 to |es|
      invariant prevHash == ChainHash(d, es, i)
      invariant valid <==> violations == []
      invariant Reports(d, es, i, violations)
    {
      var found := CheckEntry(d, es[i], i + 1, prevHash);
      ReportsStep(d, es, i, violations, found);
      valid := valid && found == [];
      violations := violations + found;
      prevHash := EventHash(d, es[i], prevHash);
    }
    ReportsAccepts(d, es, violations);
    report := Report(valid, |es|, prevHash, violations);
  }

  lemma ReportsAccepts(d: Digest, es: seq<Event>, vs: seq<Violation>)
    requires Reports(d, es, |es|, vs)
    ensures vs == [] <==> Accepts(d, es)
  {
    hide Faulty;
    if vs != [] { assert vs[0] in vs; }
  }

  lemma ReportsStep(d: Digest, es: seq<Event>, i: nat, before: seq<Violation>, found: seq<Violation>)
    requires i < |es| && Reports(d, es, i, before)
    requires forall v :: v in found <==> v.index == es[i].index && Faulty(d, es, i, v.reason)
    ensures Reports(d, es, i + 1, before + found)
  {
    hide Faulty;
    forall j, reason | 0 <= j < i + 1 && Faulty(d, es, j, reason)
      ensures Violation(es[j].index, reason) in before + found
    {
      if j == i { assert Violation(es[j].index, reason).reason == reason; }
    }
  }

  // --------------------------------------------------------- tamper evidence

  predicate SameContent(e: Event, f: Event) {
    && e.index == f.index && e.time == f.time && e.fields == f.fields
    && TrimSpace(e.kind) == TrimSpace(f.kind) && TrimSpace(e.message) == TrimSpace(f.message)
  }

  /** What is digested for entry `i` when the log is verified. */
  function PayloadAt(d: Digest, es: seq<Event>, i: nat): Payload
    requires i < |es|
  {
    PayloadOf(es[i], ChainHash(d, es, i))
  }

  /** Entries `i` and `j` of the two logs differ in what is digested, but not in the digest. */
  ghost predicate Collide(d: Digest, es: seq<Event>, fs: seq<Event>, i: nat, j: nat) {
    i < |es| && j < |fs| && PayloadAt(d, es, i) != PayloadAt(d, fs, j) && d(PayloadAt(d, es, i)) == d(PayloadAt(d, fs, j))
  }

  /** Among what is digested for these two logs, two different payloads have the same digest. */
  ghost predicate Collision(d: Digest, es: seq<Event>, fs: seq<Event>) {
    exists i, j :: Collide(d, es, fs, i, j)
  }

  lemma ChainHashTrimmed(d: Digest, es: seq<Event>, n: nat)
    requires HexOutput(d) && n <= |es|
    ensures Trimmed(ChainHash(d, es, n))
  {
    if n > 0 { EventHashTrimmed(d, es[n - 1], ChainHash(d, es, n - 1)); }
  }

  lemma SameHead(d: Digest, es: seq<Event>, fs: seq<Event>, i: nat, j: nat)
    requires i < |es| && j < |fs| && !Collide(d, es, fs, i, j)
    requires ChainHash(d, es, i + 1) == ChainHash(d, fs, j + 1)
    ensures SameContent(es[i], fs[j]) && TrimSpace(ChainHash(d, es, i)) == TrimSpace(ChainHash(d, fs, j))
  {
    hide TrimSpace;
    var x, y := PayloadAt(d, es, i), PayloadAt(d, fs, j);
    assert d(x) == ChainHash(d, es, i + 1)[7..] && d(y) == ChainHash(d, fs, j + 1)[7..];
  }

  /** The recomputed head hash commits to the number of entries and to the content of each. */
  lemma {:induction false} HeadHashCommits(d: Digest, es: seq<Event>, fs: seq<Event>, m: nat, n: nat)
    requires HexOutput(d) && m <= |es| && n <= |fs|
    requires ChainHash(d, es, m) == ChainHash(d, fs, n)
    ensures Collision(d, es, fs) || (m == n && forall i :: 0 <= i < m ==> SameContent(es[i], fs[i]))
  {
    hide TrimSpace;
    hide EventHash;
    hide HexOutput;
    hide Collide;
    hide ChainHash;
    hide SameContent;
    hide Trimmed;
    if !Collision(d, es, fs) && m > 0 {
      SameHead(d, es, fs, m - 1, n - 1);
      ChainHashTrimmed(d, es, m - 1);
      ChainHashTrimmed(d, fs, n - 1);
      HeadHashCommits(d, es, fs, m - 1, n - 1);
    }
  }

  /** Two logs that verify with the same head hash are the same log, unless two of their entries collide. */
  lemma TamperEvident(d: Digest, es: seq<Event>, fs: seq<Event>)
    requires HexOutput(d) && Accepts(d, es) && Accepts(d, fs)
    requires ChainHash(d, es, |es|) == ChainHash(d, fs, |fs|)
    ensures Collision(d, es, fs) || (|es| == |fs| && forall i :: 0 <= i < |es| ==>
      && SameContent(es[i], fs[i])
      && TrimSpace(es[i].hash) == TrimSpace(fs[i].hash)
      && TrimSpace(es[i].prevHash) == TrimSpace(fs[i].prevHash))
  {
    hide TrimSpace;
    hide ChainHash;
    hide HexOutput;
    hide Accepts;
    hide Collision;
    HeadHashCommits(d, es, fs, |es|, |fs|);
    if !Collision(d, es, fs) {
      forall i | 0 <= i < |es|
        ensures TrimSpace(es[i].hash) == TrimSpace(fs[i].hash)
        ensures TrimSpace(es[i].prevHash) == TrimSpace(fs[i].prevHash)
      {
        ChainHashContent(d, es, fs, i);
        ChainHashContent(d, es, fs, i + 1);
        AcceptedEntry(d, es, i);
        AcceptedEntry(d, fs, i);
      }
    }
  }

  // ----------------------------------------------------------- digesting texts

  /** How a 64-bit integer is written. */
  function IntText(n: int): string {
    if n < 0 then "-" + Itoa(-n) else Itoa(n)
  }

  /** How a time is written; distinct instants are written differently. */
  type Stamp = int -> string

  ghost predicate Injective(stamp: Stamp) {
    forall t, u :: stamp(t) == stamp(u) ==> t == u
  }

  /** The object whose JSON text is hashed. */
  function PayloadJson(p: Payload, stamp: Stamp): Json {
    Object(map["index" := Number(IntText(p.index)), "time" := String(stamp(p.time)), "type" := String(p.kind),
               "message" := String(p.message), "fields" := p.fields, "prev_hash" := String(p.prevHash)])
  }

  /** The digest the log uses: a hash of the JSON text of the payload. */
  ghost function TextDigest(hash: string -> string, stamp: Stamp): Digest {
    p => hash(Print(PayloadJson(p, stamp)))
  }

  lemma {:induction false} ItoaDigits(n: nat)
    ensures var s := Itoa(n);
            s != "" && (forall i :: 0 <= i < |s| ==> IsDigit(s[i])) && (s[0] == '0' ==> n == 0 && s == "0")
  {
    if n >= 10 { ItoaDigits(n / 10); }
  }

  lemma {:induction false} AllDigits(s: string)
    requires forall i :: 0 <= i < |s| ==> IsDigit(s[i])
    ensures DigitRun(s) == |s|
  {
    if s != "" { AllDigits(s[1..]); }
  }

  lemma IntTextIsNumber(n: int)
    ensures IsNumberLiteral(IntText(n))
  {
    var u := Itoa(if n < 0 then -n else n);
    ItoaDigits(if n < 0 then -n else n);
    AllDigits(u);
    assert u[|u|..] == "";
    assert n < 0 ==> IntText(n)[1..] == u && IntText(n)[0] == '-';
  }

  lemma IntTextInjective(m: int, n: int)
    requires IntText(m) == IntText(n)
    ensures m == n
  {
    ItoaDigits(if m < 0 then -m else m);
    ItoaDigits(if n < 0 then -n else n);
    if m < 0 && n < 0 {
      assert IntText(m)[1..] == Itoa(-m) && IntText(n)[1..] == Itoa(-n);
      ItoaInjective(-m, -n);
    } else if m >= 0 && n >= 0 {
      ItoaInjective(m, n);
    }
  }

  /** The text that is hashed determines the payload. */
  lemma PayloadTextInjective(p: Payload, q: Payload, stamp: Stamp)
    requires Injective(stamp) && Decoded(p.fields) && Decoded(q.fields)
    requires Print(PayloadJson(p, stamp)) == Print(PayloadJson(q, stamp))
    ensures p == q
  {
    hide Print;
    hide IsNumberLiteral;
    hide IntText;
    IntTextIsNumber(p.index);
    IntTextIsNumber(q.index);
    PrintInjective(PayloadJson(p, stamp), PayloadJson(q, stamp));
    var a, b := PayloadJson(p, stamp).fields, PayloadJson(q, stamp).fields;
    assert a["index"] == b["index"] && a["time"] == b["time"] && a["type"] == b["type"];
    assert a["message"] == b["message"] && a["fields"] == b["fields"] && a["prev_hash"] == b["prev_hash"];
    IntTextInjective(p.index, q.index);
  }

  /** The text hashed for entry `i`. */
  ghost function TextAt(hash: string -> string, stamp: Stamp, es: seq<Event>, i: nat): string
    requires i < |es|
  {
    Print(PayloadJson(PayloadAt(TextDigest(hash, stamp), es, i), stamp))
  }

  /**
   The text hashed for an entry is a JSON object with the entry's index, time, trimmed type and message, fields, and
   the trimmed hash before it; the entry's hash is the tagged hash of that text.
   */
  lemma HashedText(hash: string -> string, stamp: Stamp, es: seq<Event>, i: nat)
    requires i < |es| && Decoded(es[i].fields)
    ensures var d := TextDigest(hash, stamp);
      && ChainHash(d, es, i + 1) == "sha256:" + hash(TextAt(hash, stamp, es, i))
      && Read(TextAt(hash, stamp, es, i)) == Some(Object(map[
           "index" := Number(IntText(es[i].index)), "time" := String(stamp(es[i].time)),
           "type" := String(TrimSpace(es[i].kind)), "message" := String(TrimSpace(es[i].message)),
           "fields" := es[i].fields, "prev_hash" := String(TrimSpace(ChainHash(d, es, i)))]))
  {
    hide Print, Read, IsNumberLiteral, IntText, TrimSpace;
    var d := TextDigest(hash, stamp);
    IntTextIsNumber(es[i].index);
    ReadPrinted(PayloadJson(PayloadAt(d, es, i), stamp));
  }

  /**
   Tamper evidence down to the bytes hashed: two logs that verify with the same head hash hold the same content,
   or two different texts that were hashed for them have the same hash.
   */
  lemma TextTamperEvident(hash: string -> string, stamp: Stamp, es: seq<Event>, fs: seq<Event>)
    requires var d := TextDigest(hash, stamp);
      && HexOutput(d) && Accepts(d, es) && Accepts(d, fs) && ChainHash(d, es, |es|) == ChainHash(d, fs, |fs|)
    requires Injective(stamp)
    requires (forall i :: 0 <= i < |es| ==> Decoded(es[i].fields)) && forall i :: 0 <= i < |fs| ==> Decoded(fs[i].fields)
    ensures || (|es| == |fs| && forall i :: 0 <= i < |es| ==> SameContent(es[i], fs[i]))
            || exists i, j :: 0 <= i < |es| && 0 <= j < |fs| &&
                 var a, b := TextAt(hash, stamp, es, i), TextAt(hash, stamp, fs, j); a != b && hash(a) == hash(b)
  {
    hide Print;
    hide ChainHash;
    hide Accepts;
    hide HexOutput;
    hide SameContent;
    hide PayloadJson;
    var d := TextDigest(hash, stamp);
    TamperEvident(d, es, fs);
    if Collision(d, es, fs) {
      var i, j :| Collide(d, es, fs, i, j);
      var p, q := PayloadAt(d, es, i), PayloadAt(d, fs, j);
      var a, b := TextAt(hash, stamp, es, i), TextAt(hash, stamp, fs, j);
      if a == b { PayloadTextInjective(p, q, stamp); }
      assert hash(a) == hash(b) && a != b;
    }
  }

  lemma AcceptedEntry(d: Digest, es: seq<Event>, i: nat)
    requires i < |es| && Accepts(d, es)
    ensures es[i].index == i + 1
    ensures TrimSpace(es[i].prevHash) == TrimSpace(ChainHash(d, es, i))
    ensures TrimSpace(es[i].hash) == ChainHash(d, es, i + 1)
  {
    assert !Faulty(d, es, i, IndexMismatch) && !Faulty(d, es, i, PrevHashMismatch) && !Faulty(d, es, i, HashMismatch);
  }

  lemma {:induction false} ChainHashContent(d: Digest, es: seq<Event>, fs: seq<Event>, n: nat)
    requires n <= |es| && n <= |fs| && forall i :: 0 <= i < n ==> SameContent(es[i], fs[i])
    ensures ChainHash(d, es, n) == ChainHash(d, fs, n)
  {
    hide IsSpace;
    if n > 0 {
      ChainHashContent(d, es, fs, n - 1);
      assert SameContent(es[n - 1], fs[n - 1]);
    }
  }

  // ------------------------------------------------------------ the log as a state machine

  /** An entry to be logged, with the clock reading taken when it is sealed. */
  datatype Stamped = Stamped(event: Event, now: int)

  type Limit = n: nat | n > 0 witness 1

  datatype LogState = LogState(limit: Limit, events: seq<Event>, nextIndex: nat, lastHash: string)

  datatype Op = Append(item: Stamped) | Replace(items: seq<Stamped>)

  function SealWith(d: Digest, x: Stamped, index: int, prevHash: string): Event {
    var e := x.event.(
      time := if x.event.time == 0 then x.now else x.event.time,
      index := index, prevHash := prevHash);
    e.(hash := EventHash(d, e, prevHash))
  }

  function Seal(d: Digest, s: LogState, x: Stamped): Event {
    SealWith(d, x, s.nextIndex + 1, s.lastHash)
  }

  function AppendStep(d: Digest, s: LogState, x: Stamped): LogState {
    var e := Seal(d, s, x);
    var kept := if |s.events| >= s.limit then s.events[1..] else s.events;
    LogState(s.limit, kept + [e], s.nextIndex + 1, e.hash)
  }

  function SealAll(d: Digest, s: LogState, xs: seq<Stamped>): LogState {
    if xs == [] then s
    else
      var t := SealAll(d, s, xs[..|xs| - 1]);
      var e := Seal(d, t, xs[|xs| - 1]);
      LogState(t.limit, t.events + [e], t.nextIndex + 1, e.hash)
  }

  function Latest<T>(xs: seq<T>, limit: nat): (r: seq<T>)
    ensures |r| == if |xs| > limit then limit else |xs|
  {
    if |xs| > limit then xs[|xs| - limit..] else xs
  }

  function ReplaceStep(d: Digest, s: LogState, xs: seq<Stamped>): LogState {
    SealAll(d, LogState(s.limit, [], 0, ""), Latest(xs, s.limit))
  }

  function Step(d: Digest, s: LogState, op: Op): LogState {
    match op
    case Append(x) => AppendStep(d, s, x)
    case Replace(xs) => ReplaceStep(d, s, xs)
  }

  function Run(d: Digest, limit: Limit, ops: seq<Op>): LogState {
    if ops == [] then LogState(limit, [], 0, "")
    else Step(d, Run(d, limit, ops[..|ops| - 1]), ops[|ops| - 1])
  }

  /** What has been handed in since the last replacement (or since creation). */
  function Inputs(limit: Limit, ops: seq<Op>): seq<Stamped> {
    if ops == [] then []
    else
      match ops[|ops| - 1]
      case Append(x) => Inputs(limit, ops[..|ops| - 1]) + [x]
      case Replace(xs) => Latest(xs, limit)
  }

  function LastHash(es: seq<Event>): string {
    if es == [] then "" else es[|es| - 1].hash
  }

  /** The unbounded chain over a list of inputs: entry i is numbered i + 1 and sealed over its predecessor. */
  function ChainOf(d: Digest, xs: seq<Stamped>): (es: seq<Event>)
    ensures |es| == |xs|
  {
    if xs == [] then []
    else
      var front := ChainOf(d, xs[..|xs| - 1]);
      front + [SealWith(d, xs[|xs| - 1], |xs|, LastHash(front))]
  }

  lemma ChainOfSnoc(d: Digest, xs: seq<Stamped>, x: Stamped)
    ensures ChainOf(d, xs + [x]) == ChainOf(d, xs) + [SealWith(d, x, |xs| + 1, LastHash(ChainOf(d, xs)))]
  {
    assert (xs + [x])[..|xs|] == xs;
  }

  /** The state that keeps the latest `limit` entries of a chain. */
  function Window(d: Digest, limit: Limit, xs: seq<Stamped>): LogState {
    var chain := ChainOf(d, xs);
    LogState(limit, Latest(chain, limit), |xs|, LastHash(chain))
  }

  lemma LatestSnoc<T>(xs: seq<T>, x: T, limit: Limit)
    ensures Latest(xs + [x], limit)
         == (if |xs| >= limit then Latest(xs, limit)[1..] else Latest(xs, limit)) + [x]
  {}

  lemma AppendKeepsWindow(d: Digest, limit: Limit, xs: seq<Stamped>, x: Stamped)
    ensures AppendStep(d, Window(d, limit, xs), x) == Window(d, limit, xs + [x])
  {
    hide SealWith;
    hide EventHash;
    ChainOfSnoc(d, xs, x);
    LatestSnoc(ChainOf(d, xs), Seal(d, Window(d, limit, xs), x), limit);
  }

  lemma {:induction false} ReplaceGivesWindow(d: Digest, limit: Limit, xs: seq<Stamped>)
    requires |xs| <= limit
    ensures SealAll(d, LogState(limit, [], 0, ""), xs) == Window(d, limit, xs)
  {
    if xs != [] {
      var front, x := xs[..|xs| - 1], xs[|xs| - 1];
      ReplaceGivesWindow(d, limit, front);
      assert xs == front + [x];
      ChainOfSnoc(d, front, x);
    }
  }

  /** In every run the log is the latest window of the chain over the inputs since the last replacement. */
  lemma {:induction false} RunIsWindow(d: Digest, limit: Limit, ops: seq<Op>)
    ensures Run(d, limit, ops) == Window(d, limit, Inputs(limit, ops))
  {
    if ops != [] {
      var front, op := ops[..|ops| - 1], ops[|ops| - 1];
      RunIsWindow(d, limit, front);
      match op {
        case Append(x) => AppendKeepsWindow(d, limit, Inputs(limit, front), x);
        case Replace(xs) => ReplaceGivesWindow(d, limit, Latest(xs, limit));
      }
    }
  }

  ghost predicate Linked(d: Digest, e: Event, index: int, prevHash: string) {
    e.index == index && e.prevHash == prevHash && e.hash == EventHash(d, e, prevHash)
  }

  /** The entry holds what was handed in, timed by the clock if it came without a time. */
  predicate Holds(e: Event, x: Stamped) {
    && e.kind == x.event.kind && e.message == x.event.message && e.fields == x.event.fields
    && e.time == if x.event.time == 0 then x.now else x.event.time
  }

  lemma SealLinked(d: Digest, x: Stamped, index: int, prevHash: string)
    ensures Linked(d, SealWith(d, x, index, prevHash), index, prevHash) && Holds(SealWith(d, x, index, prevHash), x)
  {}

  lemma {:induction false} ChainLinked(d: Digest, xs: seq<Stamped>, i: nat)
    requires i < |xs|
    ensures var es := ChainOf(d, xs);
            Linked(d, es[i], i + 1, if i == 0 then "" else es[i - 1].hash) && Holds(es[i], xs[i])
  {
    hide TrimSpace;
    hide EventHash;
    var front := xs[..|xs| - 1];
    if i < |front| {
      ChainLinked(d, front, i);
    } else {
      SealLinked(d, xs[i], i + 1, LastHash(ChainOf(d, front)));
    }
  }

  lemma {:induction false} ChainHashOfChain(d: Digest, xs: seq<Stamped>, n: nat)
    requires n <= |xs|
    ensures ChainHash(d, ChainOf(d, xs), n) == if n == 0 then "" else ChainOf(d, xs)[n - 1].hash
  {
    hide TrimSpace;
    hide EventHash;
    hide ChainOf;
    if n > 0 {
      ChainHashOfChain(d, xs, n - 1);
      ChainLinked(d, xs, n - 1);
    }
  }

  lemma ChainAccepted(d: Digest, xs: seq<Stamped>)
    requires HexOutput(d)
    ensures Accepts(d, ChainOf(d, xs))
  {
    var es := ChainOf(d, xs);
    forall i, reason | 0 <= i < |es| ensures !Faulty(d, es, i, reason) {
      ChainLinked(d, xs, i);
      ChainHashOfChain(d, xs, i);
      ChainHashOfChain(d, xs, i + 1);
      EventHashTrimmed(d, es[i], es[i].prevHash);
    }
  }

  /**
   Retained entries: the latest inputs in order, consecutive indices, adjacent links, the last one hashing to
   the stored head.
   */
  lemma RetainedEntries(d: Digest, limit: Limit, ops: seq<Op>, i: nat)
    requires i < |Run(d, limit, ops).events|
    ensures var s, total := Run(d, limit, ops), |Inputs(limit, ops)|;
      && |s.events| <= limit && |s.events| <= total
      && s.nextIndex == total
      && s.lastHash == s.events[|s.events| - 1].hash
      && s.events[i].index == total - |s.events| + i + 1
      && Holds(s.events[i], Inputs(limit, ops)[total - |s.events| + i])
      && s.events[i].hash == EventHash(d, s.events[i], s.events[i].prevHash)
      && (i > 0 ==> s.events[i].prevHash == s.events[i - 1].hash)
  {
    hide TrimSpace;
    hide EventHash;
    hide ChainOf;
    hide Run;
    hide Inputs;
    RunIsWindow(d, limit, ops);
    var xs := Inputs(limit, ops);
    var skip := |xs| - |Run(d, limit, ops).events|;
    ChainLinked(d, xs, skip + i);
  }

  /** The log verifies exactly while nothing has been evicted since the last replacement. */
  lemma VerifiesIffNothingEvicted(d: Digest, limit: Limit, ops: seq<Op>)
    requires HexOutput(d)
    ensures Accepts(d, Run(d, limit, ops).events) <==> |Inputs(limit, ops)| <= limit
  {
    RunIsWindow(d, limit, ops);
    var xs := Inputs(limit, ops);
    if |xs| <= limit {
      ChainAccepted(d, xs);
    } else {
      var es := Run(d, limit, ops).events;
      RetainedEntries(d, limit, ops, 0);
      assert Faulty(d, es, 0, IndexMismatch);
    }
  }

  // ------------------------------------------------------------ the store

  const DEFAULT_LIMIT: Limit := 10_000

  class EventStore {
    const digest: Digest
    const limit: Limit
    const buffer: array<Event>
    var count: nat
    var nextIndex: nat
    var lastHash: string

    ghost predicate Valid()
      reads this
    {
      buffer.Length == limit && count <= limit
    }

    function State(): LogState
      requires Valid()
      reads this, buffer
    {
      LogState(limit, buffer[..count], nextIndex, lastHash)
    }

    constructor (digest: Digest, limit: int)
      ensures Valid() && fresh(buffer) && this.digest == digest
      ensures this.limit == if limit <= 0 then DEFAULT_LIMIT else limit
      ensures State() == Run(digest, this.limit, [])
    {
      this.digest := digest;
      this.limit := if limit <= 0 then DEFAULT_LIMIT else limit;
      buffer := new Event[if limit <= 0 then DEFAULT_LIMIT else limit](_ => Event(0, 0, "", "", Null, "", ""));
      count, nextIndex, lastHash := 0, 0, "";
    }

    method SealEvent(x: Stamped) returns (sealed: Event)
      requires Valid()
      modifies this`nextIndex, this`lastHash
      ensures Valid()
      ensures sealed == Seal(digest, old(State()), x)
      ensures nextIndex == old(nextIndex) + 1 && lastHash == sealed.hash
    {
      sealed := x.event;
      if sealed.time == 0 { sealed := sealed.(time := x.now); }
      nextIndex := nextIndex + 1;
      sealed := sealed.(index := nextIndex, prevHash := lastHash);
      sealed := sealed.(hash := EventHash(digest, sealed, lastHash));
      lastHash := sealed.hash;
    }

    /** Appends one entry; a full buffer is shifted left in place first. */
    method Append(x: Stamped)
      requires Valid()
      modifies this, buffer
      ensures Valid()
      ensures State() == AppendStep(digest, old(State()), x)
    {
      hide SealWith;
      var sealed := SealEvent(x);
      ghost var before := buffer[..count];
      if count >= limit {
        for i := 0 to count - 1
          modifies buffer
          invariant forall k :: 0 <= k < i ==> buffer[k] == before[k + 1]
          invariant forall k :: i <= k < count ==> buffer[k] == before[k]
        {
          buffer[i] := buffer[i + 1];
        }
        buffer[count - 1] := sealed;
        assert buffer[..count] == before[1..] + [sealed];
      } else {
        buffer[count] := sealed;
        count := count + 1;
        assert buffer[..count] == before + [sealed];
      }
    }

    /** Restarts the chain over the latest items. */
    method Replace(items: seq<Stamped>)
      requires Valid()
      modifies this, buffer
      ensures Valid()
      ensures State() == ReplaceStep(digest, old(State()), items)
    {
      hide SealWith;
      count, lastHash, nextIndex := 0, "", 0;
      var kept := if |items| > limit then items[|items| - limit..] else items;
      ghost var start := LogState(limit, [], 0, "");
      for i := 0 to |kept|
        invariant Valid() && count == i
        invariant State() == SealAll(digest, start, kept[..i])
      {
        assert kept[..i + 1][..i] == kept[..i];
        ghost var before := buffer[..count];
        var sealed := SealEvent(kept[i]);
        buffer[count] := sealed;
        count := count + 1;
        assert buffer[..count] == before + [sealed];
      }
      assert kept[..|kept|] == kept;
    }

    method VerifyIntegrity() returns (report: Report)
      requires Valid()
      ensures report.valid <==> Accepts(digest, State().events)
      ensures report.checked == count && report.lastHash == ChainHash(digest, State().events, count)
      ensures Reports(digest, State().events, count, report.violations)
    {
      report := Verify(digest, buffer[..count]);
    }
  }
}
