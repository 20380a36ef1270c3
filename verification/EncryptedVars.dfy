/**
 The encrypted variable store and its key rotation (internal/control/encrypted_vars.go).
 Main results: over any run the store answers exactly like a store of plain values guarded by the passphrase
 they were last written under; rotation is all or nothing and keeps every value; every file's key version stays
 between 1 and the current one; exporting and importing into an empty store loses nothing.
 The cipher is a parameter with stated assumptions; times are numbers, 0 standing for the zero time.
 */
module EncryptedVars {
  import opened Wrappers
  import opened Text
  import opened Normalize
  import opened JsonText
  import opened CanonicalJson

  type Data = map<string, Json>

  datatype Sealed = Sealed(ciphertext: string, nonce: string)

  /**
   The cipher. `seal` takes the data, the passphrase and the random draw behind the nonce; `open` takes the two
   texts and a passphrase; `decoded` is what data becomes when it is written as JSON and read back, which may change
   how a number is written; `base64` says which texts decode.
   */
  datatype Cipher = Cipher(
    seal: (Data, string, nat) -> Sealed, open: (Sealed, string) -> Option<Data>, decoded: Data -> Data,
    base64: string -> bool)

  predicate Wire(c: Cipher, x: Sealed) {
    && Trimmed(x.ciphertext) && x.ciphertext != "" && c.base64(x.ciphertext)
    && Trimmed(x.nonce) && x.nonce != "" && c.base64(x.nonce)
  }

  /** Sealing yields base64 text, opening undoes it up to decoding, and what was opened has been decoded. */
  ghost predicate Correct(c: Cipher) {
    && (forall data, pass, draw ::
          var x := c.seal(data, pass, draw); Wire(c, x) && c.open(x, pass) == Some(c.decoded(data)))
    && (forall x, pass :: c.open(x, pass).Some? ==> c.decoded(c.open(x, pass).value) == c.open(x, pass).value)
  }

  /** A text with the passphrase it was sealed under. */
  datatype Seal = Seal(body: Sealed, pass: string)

  /** None of the seals opens under a different one of the passphrases. */
  ghost predicate Committing(c: Cipher, seals: set<Seal>, passes: set<string>) {
    forall x, pass :: x in seals && pass in passes && pass != x.pass ==> c.open(x.body, pass) == None
  }

  datatype File = File(name: string, version: int, body: Sealed, updatedAt: int)

  datatype State = State(files: map<string, File>, current: int)

  const INITIAL := State(map[], 0)

  datatype Error =
    | NameRequired | PassphraseRequired | NotFound | CannotOpen | TextRequired | BadCiphertext | BadNonce

  type Outcome<T> = Result<T, Error>

  // ------------------------------------------------------------- operations

  function TrimBody(x: Sealed): Sealed {
    Sealed(TrimSpace(x.ciphertext), TrimSpace(x.nonce))
  }

  function Open(c: Cipher, f: File, pass: string): Option<Data> {
    c.open(TrimBody(f.body), pass)
  }

  function Upsert(s: State, c: Cipher, raw: string, data: Data, pass: string, draw: nat, now: int): (State, Outcome<File>) {
    var name := Norm(raw);
    if name == "" then (s, Err(NameRequired))
    else if Blank(pass) then (s, Err(PassphraseRequired))
    else
      var version := if s.current <= 0 then 1 else s.current;
      var f := File(name, version, c.seal(data, pass, draw), now);
      (State(s.files[name := f], version), Ok(f))
  }

  function Get(s: State, c: Cipher, raw: string, pass: string): Outcome<(Data, File)> {
    var name := Norm(raw);
    if name == "" then Err(NameRequired)
    else if Blank(pass) then Err(PassphraseRequired)
    else if name !in s.files then Err(NotFound)
    else
      match Open(c, s.files[name], pass)
      case None => Err(CannotOpen)
      case Some(data) => Ok((data, s.files[name]))
  }

  function Delete(s: State, raw: string): State {
    s.(files := s.files - {Norm(raw)})
  }

  /** Storing a file that is already encrypted; also says whether the name is new. */
  function Import(s: State, c: Cipher, f: File, now: int): (State, Outcome<(File, bool)>) {
    var name, body := Norm(f.name), TrimBody(f.body);
    if name == "" then (s, Err(NameRequired))
    else if body.ciphertext == "" || body.nonce == "" then (s, Err(TextRequired))
    else if !c.base64(body.ciphertext) then (s, Err(BadCiphertext))
    else if !c.base64(body.nonce) then (s, Err(BadNonce))
    else
      var version := if f.version > 0 then f.version else if s.current > 0 then s.current else 1;
      var item := File(name, version, body, if f.updatedAt == 0 then now else f.updatedAt);
      (State(s.files[name := item], if version > s.current then version else s.current),
       Ok((item, name !in s.files)))
  }

  function NextVersion(s: State): int {
    if s.current + 1 <= 0 then 1 else s.current + 1
  }

  /** The file sealed again under the new passphrase. */
  function Resealed(c: Cipher, f: File, from: string, to: string, draw: nat, version: int, now: int): File
    requires Open(c, f, from).Some?
  {
    f.(body := c.seal(Open(c, f, from).value, to, draw), version := version, updatedAt := now)
  }

  predicate AllOpen(c: Cipher, files: map<string, File>, from: string) {
    forall name :: name in files ==> Open(c, files[name], from).Some?
  }

  function ResealAll(c: Cipher, files: map<string, File>, from: string, to: string, draws: string -> nat,
                     version: int, now: int): map<string, File>
    requires AllOpen(c, files, from)
  {
    map name | name in files :: Resealed(c, files[name], from, to, draws(name), version, now)
  }

  function Rotate(s: State, c: Cipher, from: string, to: string, draws: string -> nat, now: int): (State, Outcome<nat>) {
    var a, b := TrimSpace(from), TrimSpace(to);
    if a == "" || b == "" then (s, Err(PassphraseRequired))
    else if !AllOpen(c, s.files, a) then (s, Err(CannotOpen))
    else
      var files := ResealAll(c, s.files, a, b, draws, NextVersion(s), now);
      (State(files, NextVersion(s)), Ok(|files|))
  }

  // ----------------------------------------------------------- one rotation

  lemma OpenSealed(c: Cipher, f: File, data: Data, pass: string, draw: nat)
    requires Correct(c) && f.body == c.seal(data, pass, draw)
    ensures Open(c, f, pass) == Some(c.decoded(data)) && Wire(c, f.body)
    ensures forall other :: Open(c, f, other) == c.open(f.body, other)
  {
    hide TrimSpace;
    assert Wire(c, f.body);
    assert TrimBody(f.body) == f.body;
  }

  /** What a file opens to has been decoded already. */
  lemma OpenedIsDecoded(c: Cipher, f: File, pass: string)
    requires Correct(c) && Open(c, f, pass).Some?
    ensures c.decoded(Open(c, f, pass).value) == Open(c, f, pass).value
  {}

  /** A successful rotation keeps the names, keeps every value, and puts every file at the new current version. */
  lemma RotateKeepsValues(s: State, c: Cipher, from: string, to: string, draws: string -> nat, now: int)
    requires Correct(c)
    ensures var (t, out) := Rotate(s, c, from, to, draws, now);
            out.Ok? ==>
              && t.files.Keys == s.files.Keys && out.value == |s.files|
              && t.current == (if s.current < 0 then 1 else s.current + 1)
              && forall name :: name in s.files ==>
                   && t.files[name].version == t.current && t.files[name].name == s.files[name].name
                   && t.files[name].updatedAt == now
                   && Open(c, t.files[name], TrimSpace(to)) == Open(c, s.files[name], TrimSpace(from))
  {
    hide TrimSpace;
    hide Open;
    hide Correct;
    var (t, out) := Rotate(s, c, from, to, draws, now);
    if out.Ok? {
      assert t.files.Keys == s.files.Keys;
      assert |t.files| == |t.files.Keys| == |s.files.Keys| == |s.files|;
      forall name | name in s.files
        ensures Open(c, t.files[name], TrimSpace(to)) == Open(c, s.files[name], TrimSpace(from))
      {
        OpenedIsDecoded(c, s.files[name], TrimSpace(from));
        OpenSealed(c, t.files[name], Open(c, s.files[name], TrimSpace(from)).value, TrimSpace(to), draws(name));
      }
    }
  }

  /**
   Rotation trims the passphrases it is given, reading and writing do not: after a successful rotation the new
   passphrase as the caller wrote it reads the files exactly when it has no surrounding white space.
   */
  lemma NewPassphraseReadsIffTrimmed(
    s: State, c: Cipher, from: string, to: string, draws: string -> nat, now: int, name: string)
    requires Correct(c) && Rotate(s, c, from, to, draws, now).1.Ok? && Norm(name) == name && name != "" && name in s.files
    requires Committing(c, {Seal(Rotate(s, c, from, to, draws, now).0.files[name].body, TrimSpace(to))}, {to})
    ensures Get(Rotate(s, c, from, to, draws, now).0, c, name, to).Ok? <==> Trimmed(to)
  {
    hide Open, Correct, Norm;
    var t := Rotate(s, c, from, to, draws, now).0;
    var seal := Seal(t.files[name].body, TrimSpace(to));
    OpenSealed(c, t.files[name], Open(c, s.files[name], TrimSpace(from)).value, TrimSpace(to), draws(name));
    assert seal in {seal} && to in {to};
  }

  // ------------------------------------------------------------------- runs

  datatype Op =
    | UpsertOp(name: string, data: Data, pass: string, draw: nat, now: int)
    | DeleteOp(name: string)
    | ImportOp(file: File, now: int)
    | RotateOp(from: string, to: string, draws: string -> nat, now: int)

  function Step(s: State, c: Cipher, op: Op): State {
    match op
    case UpsertOp(name, data, pass, draw, now) => Upsert(s, c, name, data, pass, draw, now).0
    case DeleteOp(name) => Delete(s, name)
    case ImportOp(f, now) => Import(s, c, f, now).0
    case RotateOp(from, to, draws, now) => Rotate(s, c, from, to, draws, now).0
  }

  function Run(c: Cipher, ops: seq<Op>): State {
    if ops == [] then INITIAL else Step(Run(c, ops[..|ops| - 1]), c, ops[|ops| - 1])
  }

  /** Files are filed under their normalised names, hold base64 text, and carry a version the store has reached. */
  ghost predicate FileOk(s: State, c: Cipher, name: string) {
    name in s.files &&
    var f := s.files[name];
    f.name == name && name != "" && Norm(name) == name && Wire(c, f.body) && 1 <= f.version <= s.current
  }

  ghost predicate Inv(s: State, c: Cipher) {
    0 <= s.current && forall name :: name in s.files ==> FileOk(s, c, name)
  }

  lemma UpsertKeeps(s: State, c: Cipher, name: string, data: Data, pass: string, draw: nat, now: int)
    requires Correct(c) && Inv(s, c)
    ensures Inv(Upsert(s, c, name, data, pass, draw, now).0, c)
  {
    hide TrimSpace;
    var t := Upsert(s, c, name, data, pass, draw, now).0;
    assert Wire(c, c.seal(data, pass, draw));
    forall k | k in t.files ensures FileOk(t, c, k) { assert k in s.files ==> FileOk(s, c, k); }
  }

  lemma ImportKeeps(s: State, c: Cipher, f: File, now: int)
    requires Inv(s, c)
    ensures Inv(Import(s, c, f, now).0, c)
  {
    hide TrimSpace;
    var t := Import(s, c, f, now).0;
    forall k | k in t.files ensures FileOk(t, c, k) { assert k in s.files ==> FileOk(s, c, k); }
  }

  lemma RotateKeeps(s: State, c: Cipher, from: string, to: string, draws: string -> nat, now: int)
    requires Correct(c) && Inv(s, c)
    ensures Inv(Rotate(s, c, from, to, draws, now).0, c)
  {
    hide TrimSpace;
    hide Open;
    var (t, out) := Rotate(s, c, from, to, draws, now);
    forall k | k in t.files ensures FileOk(t, c, k) {
      assert FileOk(s, c, k);
      if out.Ok? { assert Wire(c, c.seal(Open(c, s.files[k], TrimSpace(from)).value, TrimSpace(to), draws(k))); }
    }
  }

  lemma StepKeeps(s: State, c: Cipher, op: Op)
    requires Correct(c) && Inv(s, c)
    ensures Inv(Step(s, c, op), c)
  {
    hide Inv;
    hide Correct;
    match op
    case UpsertOp(name, data, pass, draw, now) => UpsertKeeps(s, c, name, data, pass, draw, now);
    case DeleteOp(name) => DeleteKeeps(s, c, name);
    case ImportOp(f, now) => ImportKeeps(s, c, f, now);
    case RotateOp(from, to, draws, now) => RotateKeeps(s, c, from, to, draws, now);
  }

  lemma DeleteKeeps(s: State, c: Cipher, name: string)
    requires Inv(s, c)
    ensures Inv(Delete(s, name), c)
  {
    hide Norm;
    var t := Delete(s, name);
    forall k | k in t.files ensures FileOk(t, c, k) { assert FileOk(s, c, k); }
  }

  /** In every run each file's key version lies between 1 and the current version. */
  lemma {:induction false} RunsKeep(c: Cipher, ops: seq<Op>)
    requires Correct(c)
    ensures Inv(Run(c, ops), c)
  {
    if ops != [] {
      RunsKeep(c, ops[..|ops| - 1]);
      StepKeeps(Run(c, ops[..|ops| - 1]), c, ops[|ops| - 1]);
    }
  }

  /** Writing puts the file at the current version, the first being 1, and leaves the other files alone. */
  lemma UpsertOutcome(s: State, c: Cipher, raw: string, data: Data, pass: string, draw: nat, now: int)
    ensures var (t, out), name := Upsert(s, c, raw, data, pass, draw, now), Norm(raw);
      && (out.Ok? <==> !Blank(raw) && !Blank(pass)) && (out.Err? ==> t == s)
      && (out.Ok? ==>
            && t.current == (if s.current <= 0 then 1 else s.current)
            && out.value == File(name, t.current, c.seal(data, pass, draw), now) && t.files == s.files[name := out.value])
  {
    hide TrimSpace;
  }

  /**
   An encrypted file is taken over as it is, up to trimming, exactly when it has a name and base64 texts; a version
   below 1 becomes the current one (or 1), and the current version never falls behind.
   */
  lemma ImportOutcome(s: State, c: Cipher, f: File, now: int)
    requires s.current >= 0
    ensures var (t, out), name, body := Import(s, c, f, now), Norm(f.name), TrimBody(f.body);
      && (out.Ok? <==> !Blank(f.name) && Wire(c, body)) && (out.Err? ==> t == s)
      && (out.Ok? ==>
            && out.value.1 == (name !in s.files) && t.files == s.files[name := out.value.0]
            && out.value.0.name == name && out.value.0.body == body
            && out.value.0.version == (if f.version > 0 then f.version else if s.current > 0 then s.current else 1)
            && out.value.0.updatedAt == (if f.updatedAt == 0 then now else f.updatedAt)
            && t.current >= s.current && t.current >= out.value.0.version
            && (t.current == s.current || t.current == out.value.0.version))
  {
    hide TrimSpace;
  }

  // ------------------------------------------------- the store without a cipher

  /** A plain value with the passphrase it was written under, or a text brought in from outside. */
  datatype Entry = Written(data: Data, pass: string) | Foreign(body: Sealed)

  type Vault = map<string, Entry>

  function Reads(c: Cipher, e: Entry, pass: string): Option<Data> {
    match e
    case Written(data, p) => if p == pass then Some(data) else None
    case Foreign(body) => c.open(body, pass)
  }

  /** What each operation means for the values: no sealing, no versions. */
  function VaultStep(v: Vault, c: Cipher, op: Op): Vault {
    match op
    case UpsertOp(name, data, pass, draw, now) =>
      if Blank(name) || Blank(pass) then v else v[Norm(name) := Written(c.decoded(data), pass)]
    case DeleteOp(name) => v - {Norm(name)}
    case ImportOp(f, now) =>
      var body := TrimBody(f.body);
      if Blank(f.name) || !Wire(c, body) then v else v[Norm(f.name) := Foreign(body)]
    case RotateOp(from, to, draws, now) =>
      var a, b := TrimSpace(from), TrimSpace(to);
      if a == "" || b == "" || exists name :: name in v && Reads(c, v[name], a).None? then v
      else map name | name in v :: Written(Reads(c, v[name], a).value, b)
  }

  function VaultRun(c: Cipher, ops: seq<Op>): Vault {
    if ops == [] then map[] else VaultStep(VaultRun(c, ops[..|ops| - 1]), c, ops[|ops| - 1])
  }

  // ------------------------------------------------ what a run seals and opens

  /** The texts one operation seals. */
  ghost function SealedBy(s: State, c: Cipher, op: Op): set<Seal> {
    match op
    case UpsertOp(name, data, pass, draw, now) =>
      if Upsert(s, c, name, data, pass, draw, now).1.Err? then {} else {Seal(c.seal(data, pass, draw), pass)}
    case RotateOp(from, to, draws, now) =>
      var (t, out) := Rotate(s, c, from, to, draws, now);
      if out.Err? then {} else set name | name in t.files :: Seal(t.files[name].body, TrimSpace(to))
    case _ => {}
  }

  ghost function Seals(c: Cipher, ops: seq<Op>): set<Seal> {
    if ops == [] then {}
    else Seals(c, ops[..|ops| - 1]) + SealedBy(Run(c, ops[..|ops| - 1]), c, ops[|ops| - 1])
  }

  /** The passphrases that rotations try. */
  ghost function Openers(ops: seq<Op>): set<string> {
    set op | op in ops && op.RotateOp? :: TrimSpace(op.from)
  }

  /** The file opens to the same data as the entry, for each of the passphrases. */
  ghost predicate Same(c: Cipher, f: File, e: Entry, passes: set<string>) {
    forall pass :: pass in passes ==> Open(c, f, pass) == Reads(c, e, pass)
  }

  ghost predicate Simulates(s: State, c: Cipher, v: Vault, passes: set<string>) {
    s.files.Keys == v.Keys && forall name :: name in v ==> Same(c, s.files[name], v[name], passes)
  }

  lemma SealedSame(c: Cipher, f: File, data: Data, pass: string, draw: nat, passes: set<string>)
    requires Correct(c) && f.body == c.seal(data, pass, draw) && Committing(c, {Seal(f.body, pass)}, passes)
    ensures Same(c, f, Written(c.decoded(data), pass), passes)
  {
    hide Open, Correct;
    OpenSealed(c, f, data, pass, draw);
    var seal := Seal(f.body, pass);
    forall other | other in passes ensures Open(c, f, other) == Reads(c, Written(c.decoded(data), pass), other) {
      assert seal in {seal};
      assert other != pass ==> c.open(seal.body, other) == None;
    }
  }

  lemma CommittingFewer(c: Cipher, seals: set<Seal>, passes: set<string>, fewer: set<Seal>, some: set<string>)
    requires Committing(c, seals, passes) && fewer <= seals && some <= passes
    ensures Committing(c, fewer, some)
  {}

  lemma RotateSimulates(s: State, c: Cipher, v: Vault, op: Op, passes: set<string>)
    requires Correct(c) && Simulates(s, c, v, passes) && op.RotateOp? && TrimSpace(op.from) in passes
    requires Committing(c, SealedBy(s, c, op), passes)
    ensures Simulates(Step(s, c, op), c, VaultStep(v, c, op), passes)
  {
    hide TrimSpace, Open, Reads, Correct, Committing;
    var a, b := TrimSpace(op.from), TrimSpace(op.to);
    var (t, out) := Rotate(s, c, op.from, op.to, op.draws, op.now);
    var w := VaultStep(v, c, op);
    forall name | name in v ensures Open(c, s.files[name], a) == Reads(c, v[name], a) {
      assert Same(c, s.files[name], v[name], passes);
    }
    if out.Ok? {
      assert w == map name | name in v :: Written(Reads(c, v[name], a).value, b);
      forall name | name in w ensures Same(c, t.files[name], w[name], passes) {
        OpenedIsDecoded(c, s.files[name], a);
        CommittingFewer(c, SealedBy(s, c, op), passes, {Seal(t.files[name].body, b)}, passes);
        SealedSame(c, t.files[name], Open(c, s.files[name], a).value, b, op.draws(name), passes);
      }
    } else {
      assert w == v && t == s;
    }
  }

  lemma ForeignSame(c: Cipher, f: File, passes: set<string>)
    requires Wire(c, f.body)
    ensures Same(c, f, Foreign(f.body), passes)
  {
    hide TrimSpace;
    assert TrimBody(f.body) == f.body;
  }

  lemma ImportSimulates(s: State, c: Cipher, v: Vault, op: Op, passes: set<string>)
    requires Simulates(s, c, v, passes) && op.ImportOp?
    ensures Simulates(Step(s, c, op), c, VaultStep(v, c, op), passes)
  {
    hide TrimSpace, Same;
    var (t, out) := Import(s, c, op.file, op.now);
    var w := VaultStep(v, c, op);
    if out.Ok? {
      assert Wire(c, TrimBody(op.file.body));
      ForeignSame(c, out.value.0, passes);
    } else {
      assert !Wire(c, TrimBody(op.file.body)) || Blank(op.file.name);
      assert w == v && t == s;
    }
  }

  lemma StepSimulates(s: State, c: Cipher, v: Vault, op: Op, passes: set<string>)
    requires Correct(c) && Simulates(s, c, v, passes) && Committing(c, SealedBy(s, c, op), passes)
    requires op.RotateOp? ==> TrimSpace(op.from) in passes
    ensures Simulates(Step(s, c, op), c, VaultStep(v, c, op), passes)
  {
    hide TrimSpace, Same, Correct, Committing;
    match op
    case UpsertOp(name, data, pass, draw, now) =>
      var (t, out) := Upsert(s, c, name, data, pass, draw, now);
      if out.Ok? { SealedSame(c, out.value, data, pass, draw, passes); }
    case DeleteOp(name) =>
    case ImportOp(f, now) => ImportSimulates(s, c, v, op, passes);
    case RotateOp(from, to, draws, now) => RotateSimulates(s, c, v, op, passes);
  }

  lemma {:induction false} RunSimulates(c: Cipher, ops: seq<Op>, passes: set<string>)
    requires Correct(c) && Committing(c, Seals(c, ops), passes) && Openers(ops) <= passes
    ensures Simulates(Run(c, ops), c, VaultRun(c, ops), passes)
  {
    hide Correct, Committing, Same, Step, VaultStep, SealedBy, TrimSpace;
    if ops != [] {
      var front, op := ops[..|ops| - 1], ops[|ops| - 1];
      assert ops == front + [op];
      CommittingFewer(c, Seals(c, ops), passes, Seals(c, front), passes);
      CommittingFewer(c, Seals(c, ops), passes, SealedBy(Run(c, front), c, op), passes);
      assert Openers(front) <= Openers(ops);
      assert op.RotateOp? ==> TrimSpace(op.from) in Openers(ops);
      RunSimulates(c, front, passes);
      StepSimulates(Run(c, front), c, VaultRun(c, front), op, passes);
    }
  }

  /**
   Over any run, reading answers exactly as the plain store does: the value last written, under precisely the
   passphrase it was last written or rotated to. It takes only that no text sealed in the run opens under a
   different passphrase among those tried: the one of this read and the old ones of the rotations.
   */
  lemma ReadsAreFaithful(c: Cipher, ops: seq<Op>, raw: string, pass: string)
    requires Correct(c) && Committing(c, Seals(c, ops), Openers(ops) + {pass})
    ensures var name, v, out := Norm(raw), VaultRun(c, ops), Get(Run(c, ops), c, raw, pass);
            if Blank(raw) then out == Err(NameRequired)
            else if Blank(pass) then out == Err(PassphraseRequired)
            else if name !in v then out == Err(NotFound)
            else if Reads(c, v[name], pass).None? then out == Err(CannotOpen)
            else out.Ok? && out.value.0 == Reads(c, v[name], pass).value
  {
    hide TrimSpace, Run, VaultRun, Open, Reads, Committing;
    RunSimulates(c, ops, Openers(ops) + {pass});
    var name, s, v := Norm(raw), Run(c, ops), VaultRun(c, ops);
    if name in v { assert Same(c, s.files[name], v[name], Openers(ops) + {pass}); }
  }

  /** The value is under this passphrase. */
  predicate Under(c: Cipher, e: Entry, pass: string) {
    match e
    case Written(_, p) => p == pass
    case Foreign(body) => c.open(body, pass).Some?
  }

  /**
   After any run, rotation succeeds exactly when both passphrases are given and every value was last written or
   rotated under the old one; otherwise nothing changes. When it succeeds every value reads under the new one.
   */
  lemma RotateSucceedsIff(c: Cipher, ops: seq<Op>, from: string, to: string, draws: string -> nat, now: int)
    requires Correct(c) && Committing(c, Seals(c, ops), Openers(ops) + {TrimSpace(from)})
    ensures var s, v := Run(c, ops), VaultRun(c, ops);
      var (t, out) := Rotate(s, c, from, to, draws, now);
      && (out.Ok? <==> !Blank(from) && !Blank(to) && forall name :: name in v ==> Under(c, v[name], TrimSpace(from)))
      && (out.Err? ==> t == s)
      && (out.Ok? ==>
           && t.files.Keys == v.Keys
           && forall name :: name in v ==> Open(c, t.files[name], TrimSpace(to)) == Reads(c, v[name], TrimSpace(from)))
  {
    hide TrimSpace, Run, VaultRun, Open, Committing;
    var passes := Openers(ops) + {TrimSpace(from)};
    RunSimulates(c, ops, passes);
    RotateKeepsValues(Run(c, ops), c, from, to, draws, now);
    var s, v := Run(c, ops), VaultRun(c, ops);
    forall name | name in v ensures Open(c, s.files[name], TrimSpace(from)).Some? <==> Under(c, v[name], TrimSpace(from)) {
      assert Same(c, s.files[name], v[name], passes);
    }
  }

  /** A value written under a passphrase with surrounding white space reads back, but blocks rotation. */
  lemma PaddedPassphraseBlocksRotation(c: Cipher, data: Data, draw: nat, draws: string -> nat, now: int)
    requires Correct(c) && Committing(c, {Seal(c.seal(data, " k", draw), " k")}, {"k"})
    ensures var s := Upsert(INITIAL, c, "db", data, " k", draw, now).0;
            && Get(s, c, "db", " k").Ok?
            && Rotate(s, c, " k", "n", draws, now) == (s, Err(CannotOpen))
  {
    hide TrimSpace, Norm, Open, Correct;
    PaddedTexts();
    var s := Upsert(INITIAL, c, "db", data, " k", draw, now).0;
    var seal := Seal(c.seal(data, " k", draw), " k");
    OpenSealed(c, s.files["db"], data, " k", draw);
    assert seal in {seal} && "k" in {"k"};
  }

  lemma PaddedTexts()
    ensures TrimSpace(" k") == "k" && TrimSpace("n") == "n" && Norm("db") == "db"
  {
    assert " k"[1..] == "k";
    assert TrimLeft(" k") == TrimLeft("k") == "k";
  }

  // --------------------------------------------------------- export and import

  /** The files in ascending order of name. */
  ghost function Export(s: State): seq<File> {
    var names := SortedElems(s.files.Keys);
    seq(|names|, i requires 0 <= i < |names| => if names[i] in s.files then s.files[names[i]] else File("", 0, Sealed("", ""), 0))
  }

  function ImportAll(s: State, c: Cipher, fs: seq<File>, now: int): State {
    if fs == [] then s else Import(ImportAll(s, c, fs[..|fs| - 1], now), c, fs[|fs| - 1], now).0
  }

  function Stamped(f: File, now: int): File {
    if f.updatedAt == 0 then f.(updatedAt := now) else f
  }

  /** The largest version among the files, 0 when there are none. */
  function TopVersion(fs: seq<File>): int {
    if fs == [] then 0
    else var rest, last := TopVersion(fs[..|fs| - 1]), fs[|fs| - 1].version; if last > rest then last else rest
  }

  predicate Portable(c: Cipher, f: File) {
    f.name != "" && Norm(f.name) == f.name && Wire(c, f.body) && f.version >= 1
  }

  lemma ImportPortable(s: State, c: Cipher, f: File, now: int)
    requires Portable(c, f)
    ensures Import(s, c, f, now).0 ==
            State(s.files[f.name := Stamped(f, now)], if f.version > s.current then f.version else s.current)
  {
    hide TrimSpace;
    assert TrimBody(f.body) == f.body;
  }

  lemma {:induction false} ImportAllRebuilds(c: Cipher, fs: seq<File>, now: int)
    requires forall f :: f in fs ==> Portable(c, f)
    requires forall i, j :: 0 <= i < j < |fs| ==> fs[i].name != fs[j].name
    ensures var t := ImportAll(INITIAL, c, fs, now);
            && t.current == TopVersion(fs)
            && (forall i :: 0 <= i < |fs| ==> fs[i].name in t.files && t.files[fs[i].name] == Stamped(fs[i], now))
            && t.files.Keys == set f | f in fs :: f.name
  {
    hide Portable;
    hide Import;
    hide Stamped;
    if fs != [] {
      var front, last := fs[..|fs| - 1], fs[|fs| - 1];
      assert fs == front + [last];
      assert forall f :: f in fs <==> f in front || f == last;
      ImportAllRebuilds(c, front, now);
      var t := ImportAll(INITIAL, c, front, now);
      ImportPortable(t, c, last, now);
      assert ImportAll(INITIAL, c, fs, now) == Import(t, c, last, now).0;
    }
  }

  lemma {:induction false} TopVersionBound(fs: seq<File>, bound: int)
    requires 0 <= bound && forall f :: f in fs ==> f.version <= bound
    ensures TopVersion(fs) <= bound
  {
    if fs != [] {
      assert forall f :: f in fs[..|fs| - 1] ==> f in fs;
      TopVersionBound(fs[..|fs| - 1], bound);
    }
  }

  /**
   Exporting any reachable store and importing the files into an empty one rebuilds every file (a zero time
   becomes the time of import); only the current version may come out lower.
   */
  lemma ExportImportRoundTrip(s: State, c: Cipher, now: int)
    requires Inv(s, c)
    ensures var t := ImportAll(INITIAL, c, Export(s), now);
            && t.files == (map name | name in s.files :: Stamped(s.files[name], now))
            && t.current == TopVersion(Export(s)) <= s.current
  {
    hide *;
    ExportedArePortable(s, c);
    ExportMembers(s);
    var fs := Export(s);
    ImportAllRebuilds(c, fs, now);
    TopVersionBound(fs, s.current);
    var t := ImportAll(INITIAL, c, fs, now);
    forall name | name in s.files ensures name in t.files && t.files[name] == Stamped(s.files[name], now) {
      assert s.files[name] in fs;
    }
    forall name | name in t.files ensures name in s.files {
      var f :| f in fs && f.name == name;
    }
  }

  lemma ExportedArePortable(s: State, c: Cipher)
    requires Inv(s, c)
    ensures 0 <= s.current && forall name :: name in s.files ==> s.files[name].name == name
    ensures forall f :: f in Export(s) ==> Portable(c, f) && f.version <= s.current
  {
    hide Wire;
    hide Norm;
    hide Export;
    assert forall name :: name in s.files ==> FileOk(s, c, name);
    ExportMembers(s);
  }

  lemma ExportEntries(s: State)
    ensures var names := SortedElems(s.files.Keys);
            && |Export(s)| == |names|
            && forall i :: 0 <= i < |names| ==> names[i] in s.files && Export(s)[i] == s.files[names[i]]
  {
    var names := SortedElems(s.files.Keys);
    forall i | 0 <= i < |names| ensures names[i] in s.files { assert names[i] in Elems(names); }
  }

  lemma ListedNames(keys: set<string>)
    ensures forall k :: k in keys <==> k in SortedElems(keys)
  {
    forall k ensures k in keys <==> k in SortedElems(keys) { assert k in keys <==> k in Elems(SortedElems(keys)); }
  }

  lemma ExportMembers(s: State)
    requires forall name :: name in s.files ==> s.files[name].name == name
    ensures forall f :: f in Export(s) <==> f.name in s.files && s.files[f.name] == f
    ensures forall i, j :: 0 <= i < j < |Export(s)| ==> Export(s)[i].name != Export(s)[j].name
  {
    hide Export;
    hide Ascending;
    hide Elems;
    var names, fs := SortedElems(s.files.Keys), Export(s);
    AscendingSortId(names);
    ExportEntries(s);
    ListedNames(s.files.Keys);
    forall f: File | f.name in s.files && s.files[f.name] == f ensures f in fs {
      var i :| 0 <= i < |names| && names[i] == f.name;
      assert fs[i] == f;
    }
  }

  // -------------------------------------------------------------- the store

  class EncryptedVariableStore {
    const cipher: Cipher
    var files: map<string, File>
    var current: int

    ghost function Snapshot(): State
      reads this
    {
      State(files, current)
    }

    constructor (c: Cipher)
      ensures Snapshot() == INITIAL && cipher == c
    {
      cipher, files, current := c, map[], 0;
    }

    method UpsertData(rawName: string, data: Data, pass: string, draw: nat, now: int) returns (out: Outcome<File>)
      modifies this
      ensures (Snapshot(), out) == Upsert(old(Snapshot()), cipher, rawName, data, pass, draw, now)
    {
      hide TrimSpace;
      var name := Norm(rawName);
      if name == "" { return Err(NameRequired); }
      if TrimSpace(pass) == "" { return Err(PassphraseRequired); }
      var body := cipher.seal(data, pass, draw);
      if current <= 0 { current := 1; }
      var item := File(name, current, body, now);
      files := files[name := item];
      return Ok(item);
    }

    method GetData(rawName: string, pass: string) returns (out: Outcome<(Data, File)>)
      ensures out == Get(Snapshot(), cipher, rawName, pass)
    {
      hide TrimSpace;
      var name := Norm(rawName);
      if name == "" { return Err(NameRequired); }
      if TrimSpace(pass) == "" { return Err(PassphraseRequired); }
      if name !in files { return Err(NotFound); }
      var data := Open(cipher, files[name], pass);
      if data.None? { return Err(CannotOpen); }
      return Ok((data.value, files[name]));
    }

    method DeleteFile(rawName: string) returns (found: bool)
      modifies this`files
      ensures found == (Norm(rawName) in old(files))
      ensures Snapshot() == Delete(old(Snapshot()), rawName)
    {
      hide TrimSpace;
      var name := Norm(rawName);
      if name !in files {
        assert files - {name} == files;
        return false;
      }
      files := files - {name};
      return true;
    }

    method ExportFiles() returns (out: seq<File>)
      ensures out == Export(Snapshot())
    {
      hide Export;
      hide Ascending;
      hide Elems;
      var names := SortKeys(files.Keys);
      ExportEntries(Snapshot());
      ghost var spec := Export(Snapshot());
      out := [];
      for i := 0 to |names|
        invariant out == spec[..i]
      {
        out := out + [files[names[i]]];
      }
    }

    method UpsertEncryptedFile(file: File, now: int) returns (out: Outcome<(File, bool)>)
      modifies this
      ensures (Snapshot(), out) == Import(old(Snapshot()), cipher, file, now)
    {
      hide TrimSpace;
      var name := Norm(file.name);
      if name == "" { return Err(NameRequired); }
      var ciphertext, nonce := TrimSpace(file.body.ciphertext), TrimSpace(file.body.nonce);
      if ciphertext == "" || nonce == "" { return Err(TextRequired); }
      if !cipher.base64(ciphertext) { return Err(BadCiphertext); }
      if !cipher.base64(nonce) { return Err(BadNonce); }
      var item := File(name, file.version, Sealed(ciphertext, nonce), file.updatedAt);
      if item.version <= 0 {
        item := item.(version := if current > 0 then current else 1);
      }
      if item.updatedAt == 0 { item := item.(updatedAt := now); }
      var known := name in files;
      files := files[name := item];
      if item.version > current { current := item.version; }
      return Ok((item, !known));
    }

    method ResealFiles(from: string, to: string, draws: string -> nat, next: int, now: int)
      returns (out: Option<map<string, File>>)
      ensures out.Some? == AllOpen(cipher, files, from)
      ensures out.Some? ==> out.value == ResealAll(cipher, files, from, to, draws, next, now)
    {
      hide Open;
      var updated: map<string, File> := map[];
      var rest := files.Keys;
      while rest != {}
        invariant rest <= files.Keys && updated.Keys == files.Keys - rest
        invariant forall name :: name in updated ==> Open(cipher, files[name], from).Some?
        invariant forall name :: name in updated ==>
          updated[name] == Resealed(cipher, files[name], from, to, draws(name), next, now)
      {
        var name :| name in rest;
        rest := rest - {name};
        var item := files[name];
        var plain := Open(cipher, item, from);
        if plain.None? { return None; }
        item := item.(body := cipher.seal(plain.value, to, draws(name)), version := next, updatedAt := now);
        updated := updated[name := item];
      }
      assert AllOpen(cipher, files, from);
      return Some(updated);
    }

    /** Builds the new files on the side and installs them only when every old one has opened. */
    method RotateKey(rawFrom: string, rawTo: string, draws: string -> nat, now: int) returns (out: Outcome<nat>)
      modifies this
      ensures (Snapshot(), out) == Rotate(old(Snapshot()), cipher, rawFrom, rawTo, draws, now)
    {
      hide TrimSpace;
      hide AllOpen;
      hide ResealAll;
      var from, to := TrimSpace(rawFrom), TrimSpace(rawTo);
      if from == "" || to == "" { return Err(PassphraseRequired); }
      var next := current + 1;
      if next <= 0 { next := 1; }
      var updated := ResealFiles(from, to, draws, next, now);
      if updated.None? { return Err(CannotOpen); }
      files := updated.value;
      current := next;
      return Ok(|files|);
    }
  }
}
