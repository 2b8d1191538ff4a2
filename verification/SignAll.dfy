/** sign -all: a plan, the manifest an operator reviews it by, and the
    signatures stored for exactly that plan (cmd/mcp-gateway/sign_all.go).
    SHA-256, Ed25519, signer.Canonical and the transport rules that refuse an
    entry are parameters. */
module SignAll {
  import opened GoText
  import A = Access

  // ---- Length-prefixed fields -----------------------------------------------------

  function Pow256(k: nat): nat { if k == 0 then 1 else 256 * Pow256(k - 1) }

  /** What a 64-bit length can say: 256^8. */
  const LIMIT: nat := Pow256(8)

  /** n in k bytes, big-endian; what does not fit is dropped. */
  function BigEndian(n: nat, k: nat): (b: Bytes)
    ensures |b| == k
  {
    if k == 0 then [] else BigEndian(n / 256, k - 1) + [n % 256]
  }

  lemma {:induction false} BigEndianIsInjective(n: nat, m: nat, k: nat)
    requires n < Pow256(k) && m < Pow256(k) && BigEndian(n, k) == BigEndian(m, k)
    ensures n == m
  {
    if k > 0 {
      var x, y := BigEndian(n / 256, k - 1), BigEndian(m / 256, k - 1);
      assert (x + [n % 256])[..k - 1] == x && (y + [m % 256])[..k - 1] == y;
      assert (x + [n % 256])[k - 1] == (y + [m % 256])[k - 1];
      BigEndianIsInjective(n / 256, m / 256, k - 1);
    }
  }

  function Field(b: Bytes): Bytes { BigEndian(|b|, 8) + b }

  /** No field boundary is ambiguous: a field and what follows it can be told
      apart. */
  lemma FieldsCancel(a: Bytes, b: Bytes, x: Bytes, y: Bytes)
    requires Field(a) + x == Field(b) + y && |a| < LIMIT && |b| < LIMIT
    ensures a == b && x == y
  {
    var s, t := Field(a) + x, Field(b) + y;
    assert s[..8] == BigEndian(|a|, 8) && t[..8] == BigEndian(|b|, 8);
    BigEndianIsInjective(|a|, |b|, 8);
    assert s[8..8 + |a|] == a && t[8..8 + |b|] == b;
    assert s[8 + |a|..] == x && t[8 + |b|..] == y;
  }

  // ---- The plan ---------------------------------------------------------------------

  datatype Entry = Entry(name: Bytes, signed: Bytes, unsigned: Bytes)
  datatype Signature = Signature(bytes: Bytes, pub: Bytes)
  /** What an entry's signature is now, when this key's valid one is not it. */
  datatype Standing = Unsigned | Invalid | ByAnotherKey(pub: Bytes)
  datatype PlanEntry = PlanEntry(entry: Entry, state: Standing, refused: bool)

  /** What the outside gives: the key and its signatures, verification, the
      canonical bytes, fingerprints, the transport rules, the hash. */
  datatype World = World(pub: Bytes, trusted: seq<Bytes>,
                         sign: Bytes -> Bytes, verify: (Bytes, Bytes, Bytes) -> bool,
                         canonical: Entry -> Bytes, fingerprint: Bytes -> Bytes,
                         refuses: Entry -> bool, hash: Bytes -> string)

  const TAG: Bytes := Ascii("mcp-gateway/sign-all/plan/v1")
  const UNSIGNED: Bytes := Ascii("unsigned")
  const INVALID: Bytes :=
    Ascii("INVALID (the entry changed ") + Ascii("after it was signed, ") + Ascii("or its key is not trusted)")
  const OTHER: Bytes := Ascii("signed by another key (")
  const CLOSE: Bytes := Ascii(")")

  /** Verifier.Verify: well-formed, and good under some trusted key. */
  predicate Verifies(w: World, e: Entry, s: Signature) {
    |s.pub| == 32 && |s.bytes| == 64 && exists k <- w.trusted :: w.verify(k, w.canonical(e), s.bytes)
  }

  function Sign(w: World, e: Entry): Signature { Signature(w.sign(w.canonical(e)), w.pub) }

  /** Validly signed by this very key: left alone. */
  predicate Current(w: World, e: Entry, sigs: map<Bytes, Signature>) {
    e.name in sigs && Verifies(w, e, sigs[e.name]) && sigs[e.name].pub == w.pub
  }

  function StateOf(w: World, e: Entry, sigs: map<Bytes, Signature>): Standing {
    if e.name !in sigs then Unsigned
    else if !Verifies(w, e, sigs[e.name]) then Invalid
    else ByAnotherKey(sigs[e.name].pub)
  }

  /** The words a standing is shown, and hashed, in. */
  function TextOf(w: World, state: Standing): Bytes {
    match state
    case Unsigned => UNSIGNED
    case Invalid => INVALID
    case ByAnotherKey(pub) => OTHER + w.fingerprint(pub) + CLOSE
  }

  function Plan(w: World, entries: seq<Entry>, sigs: map<Bytes, Signature>): seq<PlanEntry> {
    if entries == [] then []
    else Item(w, entries[0], sigs) + Plan(w, entries[1..], sigs)
  }

  /** What the plan says of one entry, if anything. */
  function Item(w: World, e: Entry, sigs: map<Bytes, Signature>): seq<PlanEntry> {
    if Current(w, e, sigs) then [] else [PlanEntry(e, StateOf(w, e, sigs), w.refuses(e))]
  }

  function Signable(plan: seq<PlanEntry>): seq<PlanEntry> {
    if plan == [] then [] else (if plan[0].refused then [] else [plan[0]]) + Signable(plan[1..])
  }

  // ---- The manifest -------------------------------------------------------------------

  /** What an operator was shown of one signable entry. */
  datatype Shown = Shown(name: Bytes, state: Bytes, canonical: Bytes)

  function ShownOf(w: World, p: PlanEntry): Shown { Shown(p.entry.name, TextOf(w, p.state), w.canonical(p.entry)) }

  function ShownAll(w: World, ps: seq<PlanEntry>): seq<Shown> {
    seq(|ps|, k requires 0 <= k < |ps| => ShownOf(w, ps[k]))
  }

  function EntryFields(s: Shown): Bytes { Field(s.name) + (Field(s.state) + Field(s.canonical)) }

  function Fields(ss: seq<Shown>): Bytes {
    if ss == [] then [] else EntryFields(ss[0]) + Fields(ss[1..])
  }

  /** The bytes that are hashed. */
  function Stream(pub: Bytes, ss: seq<Shown>): Bytes {
    Field(TAG) + (Field(pub) + (Field(BigEndian(|ss|, 8)) + Fields(ss)))
  }

  predicate Short(s: Shown) { |s.name| < LIMIT && |s.state| < LIMIT && |s.canonical| < LIMIT }

  lemma {:induction false} FieldsAreInjective(x: seq<Shown>, y: seq<Shown>)
    requires |x| == |y| && Fields(x) == Fields(y)
    requires (forall s <- x :: Short(s)) && (forall s <- y :: Short(s))
    ensures x == y
  {
    if x != [] {
      assert x[0] in x && y[0] in y;
      OneEntry(x[0], Fields(x[1..]), y[0], Fields(y[1..]));
      FieldsAreInjective(x[1..], y[1..]);
      assert x == [x[0]] + x[1..] && y == [y[0]] + y[1..];
    }
  }

  lemma OneEntry(s: Shown, x: Bytes, t: Shown, y: Bytes)
    requires EntryFields(s) + x == EntryFields(t) + y && Short(s) && Short(t)
    ensures s == t && x == y
  {
    Nested(s, x);
    Nested(t, y);
    FieldsCancel(s.name, t.name, Field(s.state) + (Field(s.canonical) + x), Field(t.state) + (Field(t.canonical) + y));
    FieldsCancel(s.state, t.state, Field(s.canonical) + x, Field(t.canonical) + y);
    FieldsCancel(s.canonical, t.canonical, x, y);
  }

  lemma Nested(s: Shown, x: Bytes)
    ensures EntryFields(s) + x == Field(s.name) + (Field(s.state) + (Field(s.canonical) + x))
  { }

  /** The bytes hashed determine the key and the whole ordered list of names,
      states and canonical bytes: no two plans share a stream. */
  lemma StreamIsInjective(pub: Bytes, x: seq<Shown>, qub: Bytes, y: seq<Shown>)
    requires Stream(pub, x) == Stream(qub, y)
    requires |pub| < LIMIT && |qub| < LIMIT && |x| < LIMIT && |y| < LIMIT
    requires (forall s <- x :: Short(s)) && (forall s <- y :: Short(s))
    ensures pub == qub && x == y
  {
    LimitIsLarge();
    FieldsCancel(TAG, TAG, Field(pub) + (Field(BigEndian(|x|, 8)) + Fields(x)),
                 Field(qub) + (Field(BigEndian(|y|, 8)) + Fields(y)));
    FieldsCancel(pub, qub, Field(BigEndian(|x|, 8)) + Fields(x), Field(BigEndian(|y|, 8)) + Fields(y));
    FieldsCancel(BigEndian(|x|, 8), BigEndian(|y|, 8), Fields(x), Fields(y));
    BigEndianIsInjective(|x|, |y|, 8);
    FieldsAreInjective(x, y);
  }

  lemma LimitIsLarge()
    ensures LIMIT > 8 && |TAG| < LIMIT
  {
    assert Pow256(1) == 256 && Pow256(2) == 65536;
    PowGrows(2, 8);
  }

  lemma {:induction false} PowGrows(j: nat, k: nat)
    requires j <= k
    ensures Pow256(j) <= Pow256(k)
    decreases k
  {
    if j < k { PowGrows(j, k - 1); }
  }

  /** SHA-256's state, fed field by field. */
  class Hash {
    var fed: Bytes
    constructor ()
      ensures fed == []
    { fed := []; }

    method Write(b: Bytes)
      modifies this
      ensures fed == old(fed) + b
    { fed := fed + b; }

    method Feed(b: Bytes)
      modifies this
      ensures fed == old(fed) + Field(b)
    {
      Write(BigEndian(|b|, 8));
      Write(b);
    }
  }

  lemma {:induction false} FieldsSnoc(ss: seq<Shown>, i: nat)
    requires i < |ss|
    ensures Fields(ss[..i + 1]) == Fields(ss[..i]) + EntryFields(ss[i])
    decreases i
  {
    if i > 0 {
      FieldsSnoc(ss[1..], i - 1);
      assert ss[..i + 1][1..] == ss[1..][..i] && ss[..i][1..] == ss[1..][..i - 1];
    } else {
      assert ss[..1] == [ss[0]] && ss[..0] == [];
    }
  }

  method FilterSignable(plan: seq<PlanEntry>) returns (out: seq<PlanEntry>)
    ensures out == Signable(plan)
  {
    out := [];
    var i := 0;
    while i < |plan|
      invariant 0 <= i <= |plan|
      invariant out == Signable(plan[..i])
    {
      SignableSnoc(plan, i);
      if !plan[i].refused { out := out + [plan[i]]; }
      i := i + 1;
    }
    assert plan[..i] == plan;
  }

  method FeedEntry(h: Hash, w: World, p: PlanEntry)
    modifies h
    ensures h.fed == old(h.fed) + EntryFields(ShownOf(w, p))
  {
    var state, canonical := TextOf(w, p.state), w.canonical(p.entry);
    Reassociate(h.fed, Field(p.entry.name), Field(state), Field(canonical));
    h.Feed(p.entry.name);
    h.Feed(state);
    h.Feed(canonical);
  }

  method FeedEntries(h: Hash, w: World, signable: seq<PlanEntry>)
    modifies h
    ensures h.fed == old(h.fed) + Fields(ShownAll(w, signable))
  {
    ghost var ss := ShownAll(w, signable);
    var i := 0;
    while i < |signable|
      invariant 0 <= i <= |signable| == |ss|
      invariant h.fed == old(h.fed) + Fields(ss[..i])
    {
      ghost var fed := h.fed;
      FeedEntry(h, w, signable[i]);
      OneMoreFed(old(h.fed), fed, ss, i);
      i := i + 1;
    }
    assert ss[..i] == ss;
  }

  lemma OneMoreFed(before: Bytes, fed: Bytes, ss: seq<Shown>, i: nat)
    requires i < |ss| && fed == before + Fields(ss[..i])
    ensures fed + EntryFields(ss[i]) == before + Fields(ss[..i + 1])
  {
    FieldsSnoc(ss, i);
  }

  /** signPlanManifest. */
  method Manifest(w: World, plan: seq<PlanEntry>) returns (m: string)
    ensures m == w.hash(Stream(w.pub, ShownAll(w, Signable(plan))))
  {
    var signable := FilterSignable(plan);
    var h := FeedHead(w.pub, |signable|);
    FeedEntries(h, w, signable);
    InOneStream(w.pub, ShownAll(w, signable));
    m := w.hash(h.fed);
  }

  method FeedHead(pub: Bytes, count: nat) returns (h: Hash)
    ensures fresh(h) && h.fed == Field(TAG) + Field(pub) + Field(BigEndian(count, 8))
  {
    h := new Hash();
    h.Feed(TAG);
    h.Feed(pub);
    h.Feed(BigEndian(count, 8));
    assert [] + Field(TAG) == Field(TAG);
  }

  lemma InOneStream(pub: Bytes, ss: seq<Shown>)
    ensures Field(TAG) + Field(pub) + Field(BigEndian(|ss|, 8)) + Fields(ss) == Stream(pub, ss)
  {
    Reassociate(Field(TAG), Field(pub), Field(BigEndian(|ss|, 8)), Fields(ss));
  }

  lemma Reassociate(a: Bytes, b: Bytes, c: Bytes, d: Bytes)
    ensures a + b + c + d == a + (b + (c + d))
  { }

  // ---- The act --------------------------------------------------------------------------

  datatype Exit = ExitOK | ExitProblem | ExitCannotRun

  /** Which names' reads, writes and printed tables fail in this run. */
  datatype Faults = Faults(get: Bytes -> bool, put: Bytes -> bool, show: Bytes -> bool)

  class Signatures {
    var sigs: map<Bytes, Signature>

    constructor (given: map<Bytes, Signature>)
      ensures sigs == given
    { sigs := given; }

    method Put(name: Bytes, s: Signature, fails: bool) returns (ok: bool)
      modifies this
      ensures ok == !fails
      ensures sigs == if ok then old(sigs)[name := s] else old(sigs)
    {
      ok := !fails;
      if ok { sigs := sigs[name := s]; }
    }
  }

  /** The manifest of a plan. */
  function ManifestOf(w: World, plan: seq<PlanEntry>): string { w.hash(Stream(w.pub, ShownAll(w, Signable(plan)))) }

  predicate Signs(w: World, plan: seq<PlanEntry>, dryRun: bool, reviewed: string) {
    !dryRun && A.Given(reviewed) == ManifestOf(w, plan)
  }

  predicate Stops(p: PlanEntry, sign: bool, f: Faults) {
    f.show(p.entry.name) || (sign && !p.refused && f.put(p.entry.name))
  }

  /** How many plan entries are dealt with before the run stops on a fault. */
  function Halt(plan: seq<PlanEntry>, sign: bool, f: Faults): (n: nat)
    ensures n <= |plan|
  {
    if plan == [] || Stops(plan[0], sign, f) then 0 else 1 + Halt(plan[1..], sign, f)
  }

  /** The signatures after each of ps has been signed, in order. */
  function Stored(w: World, sigs: map<Bytes, Signature>, ps: seq<PlanEntry>): map<Bytes, Signature> {
    if ps == [] then sigs
    else Stored(w, sigs, ps[..|ps| - 1])[ps[|ps| - 1].entry.name := Sign(w, ps[|ps| - 1].entry)]
  }

  /** Every entry's signature could be read. */
  predicate Readable(entries: seq<Entry>, f: Faults) { forall e <- entries :: !f.get(e.name) }

  function CodeOf(plan: seq<PlanEntry>, sign: bool, dryRun: bool, f: Faults): Exit {
    var n := Halt(plan, sign, f);
    if n < |plan| then (if f.show(plan[n].entry.name) then ExitProblem else ExitCannotRun)
    else if |Signable(plan)| < |plan| || (!sign && !dryRun && Signable(plan) != []) then ExitProblem
    else ExitOK
  }

  method LookAt(w: World, e: Entry, store: Signatures) returns (item: seq<PlanEntry>)
    ensures item == Item(w, e, store.sigs)
  {
    item := [];
    if !Current(w, e, store.sigs) { item := [PlanEntry(e, StateOf(w, e, store.sigs), w.refuses(e))]; }
  }

  lemma PlanStep(w: World, entries: seq<Entry>, i: nat, sigs: map<Bytes, Signature>, built: seq<PlanEntry>)
    requires i < |entries|
    ensures built + Plan(w, entries[i..], sigs) == built + Item(w, entries[i], sigs) + Plan(w, entries[i + 1..], sigs)
  {
    var item := Item(w, entries[i], sigs);
    assert entries[i..][1..] == entries[i + 1..];
    assert Plan(w, entries[i..], sigs) == item + Plan(w, entries[i + 1..], sigs);
  }

  method BuildPlan(w: World, entries: seq<Entry>, f: Faults, store: Signatures) returns (plan: Option<seq<PlanEntry>>)
    ensures plan.Some? <==> Readable(entries, f)
    ensures plan.Some? ==> plan.value == Plan(w, entries, store.sigs)
  {
    var built: seq<PlanEntry> := [];
    var i := 0;
    assert entries[0..] == entries;
    while i < |entries|
      invariant 0 <= i <= |entries|
      invariant forall k :: 0 <= k < i ==> !f.get(entries[k].name)
      invariant built + Plan(w, entries[i..], store.sigs) == Plan(w, entries, store.sigs)
    {
      if f.get(entries[i].name) { return None; }
      PlanStep(w, entries, i, store.sigs, built);
      var item := LookAt(w, entries[i], store);
      built := built + item;
      i := i + 1;
    }
    plan := Some(built);
  }

  lemma Regroup(a: seq<PlanEntry>, b: seq<PlanEntry>, c: seq<PlanEntry>)
    ensures (a + b) + c == a + (b + c)
  { }

  lemma {:induction false} SignableConcat(a: seq<PlanEntry>, b: seq<PlanEntry>)
    ensures Signable(a + b) == Signable(a) + Signable(b)
  {
    if a == [] {
      assert a + b == b;
    } else {
      SignableConcat(a[1..], b);
      assert (a + b)[0] == a[0] && (a + b)[1..] == a[1..] + b;
      Regroup(if a[0].refused then [] else [a[0]], Signable(a[1..]), Signable(b));
    }
  }

  lemma SignableSnoc(plan: seq<PlanEntry>, i: nat)
    requires i < |plan|
    ensures Signable(plan[..i + 1]) == if plan[i].refused then Signable(plan[..i]) else Signable(plan[..i]) + [plan[i]]
  {
    SignableConcat(plan[..i], [plan[i]]);
    assert plan[..i] + [plan[i]] == plan[..i + 1];
  }

  lemma StoredSnoc(w: World, sigs: map<Bytes, Signature>, ps: seq<PlanEntry>, p: PlanEntry)
    ensures Stored(w, sigs, ps + [p]) == Stored(w, sigs, ps)[p.entry.name := Sign(w, p.entry)]
  {
    assert (ps + [p])[..|ps|] == ps;
  }

  /** One turn of the walk over the plan. */
  method SignOne(w: World, plan: seq<PlanEntry>, i: nat, sign: bool, f: Faults, store: Signatures,
                 ghost before: map<Bytes, Signature>) returns (stop: Option<Exit>)
    requires i < |plan|
    requires store.sigs == if sign then Stored(w, before, Signable(plan[..i])) else before
    modifies store
    ensures stop.Some? <==> Stops(plan[i], sign, f)
    ensures stop.Some? ==> store.sigs == old(store.sigs)
                           && stop.value == if f.show(plan[i].entry.name) then ExitProblem else ExitCannotRun
    ensures stop.None? ==> store.sigs == if sign then Stored(w, before, Signable(plan[..i + 1])) else before
  {
    var p := plan[i];
    SignableSnoc(plan, i);
    if f.show(p.entry.name) { return Some(ExitProblem); }
    if p.refused || !sign { return None; }
    StoredSnoc(w, before, Signable(plan[..i]), p);
    var ok := store.Put(p.entry.name, Sign(w, p.entry), f.put(p.entry.name));
    stop := if ok then None else Some(ExitCannotRun);
  }

  method WalkPlan(w: World, plan: seq<PlanEntry>, sign: bool, f: Faults, store: Signatures)
    returns (stop: Option<Exit>)
    modifies store
    ensures var n := Halt(plan, sign, f);
            && store.sigs == (if sign then Stored(w, old(store.sigs), Signable(plan[..n])) else old(store.sigs))
            && (stop.Some? <==> n < |plan|)
            && (stop.Some? ==> stop.value == if f.show(plan[n].entry.name) then ExitProblem else ExitCannotRun)
  {
    var i := 0;
    assert plan[0..] == plan && plan[..0] == [];
    while i < |plan|
      invariant 0 <= i <= |plan|
      invariant i + Halt(plan[i..], sign, f) == Halt(plan, sign, f)
      invariant store.sigs == if sign then Stored(w, old(store.sigs), Signable(plan[..i])) else old(store.sigs)
    {
      assert plan[i..][1..] == plan[i + 1..];
      stop := SignOne(w, plan, i, sign, f, store, old(store.sigs));
      if stop.Some? { return; }
      i := i + 1;
    }
    stop := None;
  }

  /** The result of a run on a plan: what it answers and what it stores. */
  predicate Outcome(w: World, plan: seq<PlanEntry>, dryRun: bool, reviewed: string, f: Faults,
                    before: map<Bytes, Signature>, after: map<Bytes, Signature>, code: Exit) {
    var sign := Signs(w, plan, dryRun, reviewed);
    && code == CodeOf(plan, sign, dryRun, f)
    && after == if sign then Stored(w, before, Signable(plan[..Halt(plan, sign, f)])) else before
  }

  method Act(w: World, plan: seq<PlanEntry>, dryRun: bool, reviewed: string, f: Faults, store: Signatures)
    returns (code: Exit)
    modifies store
    ensures Outcome(w, plan, dryRun, reviewed, f, old(store.sigs), store.sigs, code)
  {
    var manifest := Manifest(w, plan);
    var sign := !dryRun && A.Given(reviewed) == manifest;
    var stop := WalkPlan(w, plan, sign, f, store);
    if stop.Some? { return stop.value; }
    var signable := FilterSignable(plan);
    var problem := |signable| < |plan|;
    if !sign && |signable| > 0 && !dryRun { problem := true; }
    code := if problem then ExitProblem else ExitOK;
  }

  lemma NothingToDo(w: World, dryRun: bool, reviewed: string, f: Faults, sigs: map<Bytes, Signature>)
    ensures Outcome(w, [], dryRun, reviewed, f, sigs, sigs, ExitOK)
  { }

  /** runSignAll, once the key, the verifier and the registry have been read
      (entries is None when one of them could not be). */
  method RunSignAll(w: World, entries: Option<seq<Entry>>, dryRun: bool, reviewed: string, f: Faults, store: Signatures)
    returns (code: Exit)
    modifies store
    ensures entries.None? || !Readable(entries.value, f) ==> code == ExitCannotRun && store.sigs == old(store.sigs)
    ensures entries.Some? && Readable(entries.value, f) ==>
              Outcome(w, Plan(w, entries.value, old(store.sigs)), dryRun, reviewed, f, old(store.sigs), store.sigs,
                      code)
  {
    if entries.None? { return ExitCannotRun; }
    var built := BuildPlan(w, entries.value, f, store);
    if built.None? { return ExitCannotRun; }
    if built.value == [] {
      NothingToDo(w, dryRun, reviewed, f, store.sigs);
      return ExitOK;
    }
    code := Act(w, built.value, dryRun, reviewed, f, store);
  }

  /** Where a run stops: nothing before it failed, what was signed is exactly
      the first entries of the signable list, and if a write failed, it was the
      write of the next one. */
  lemma {:induction false} TheFirstAreSigned(plan: seq<PlanEntry>, sign: bool, f: Faults)
    ensures var n := Halt(plan, sign, f);
            && (forall i :: 0 <= i < n ==> !Stops(plan[i], sign, f))
            && (n < |plan| ==> Stops(plan[n], sign, f))
            && Signable(plan[..n]) <= Signable(plan)
            && (n < |plan| && !plan[n].refused ==>
                  |Signable(plan[..n])| < |Signable(plan)| && Signable(plan)[|Signable(plan[..n])|] == plan[n])
  {
    var n := Halt(plan, sign, f);
    HaltsAtTheFirst(plan, sign, f);
    SignableConcat(plan[..n], plan[n..]);
    assert plan[..n] + plan[n..] == plan;
  }

  lemma {:induction false} HaltsAtTheFirst(plan: seq<PlanEntry>, sign: bool, f: Faults)
    ensures var n := Halt(plan, sign, f);
            && (forall i :: 0 <= i < n ==> !Stops(plan[i], sign, f))
            && (n < |plan| ==> Stops(plan[n], sign, f))
  {
    if plan != [] && !Stops(plan[0], sign, f) {
      HaltsAtTheFirst(plan[1..], sign, f);
      forall i | 0 <= i < Halt(plan, sign, f) ensures !Stops(plan[i], sign, f) {
        assert i > 0 ==> plan[i] == plan[1..][i - 1];
      }
    }
  }

  // ---- What the act means -----------------------------------------------------------------

  /** The operator reviewed one plan and passed its manifest to a later run. If
      that run signs, and the hash does not collide on these two streams, it
      signs exactly what was reviewed: same key, same names in the same order,
      same states, same signed bytes. */
  lemma OnlyTheReviewedPlanIsSigned(w: World, shown: seq<PlanEntry>, v: World, plan: seq<PlanEntry>, reviewed: string)
    requires A.Given(reviewed) == ManifestOf(w, shown) && Signs(v, plan, false, reviewed) && w.hash == v.hash
    requires var x, y := Stream(w.pub, ShownAll(w, Signable(shown))), Stream(v.pub, ShownAll(v, Signable(plan)));
             w.hash(x) == w.hash(y) ==> x == y
    requires |w.pub| < LIMIT && |v.pub| < LIMIT && |Signable(shown)| < LIMIT && |Signable(plan)| < LIMIT
    requires forall s <- ShownAll(w, Signable(shown)) + ShownAll(v, Signable(plan)) :: Short(s)
    ensures w.pub == v.pub && ShownAll(w, Signable(shown)) == ShownAll(v, Signable(plan))
  {
    var x, y := ShownAll(w, Signable(shown)), ShownAll(v, Signable(plan));
    forall s <- x ensures Short(s) { assert s in x + y; }
    forall s <- y ensures Short(s) { assert s in x + y; }
    StreamIsInjective(w.pub, x, v.pub, y);
  }

  predicate Distinct(entries: seq<Entry>) {
    forall i, j :: 0 <= i < j < |entries| ==> entries[i].name != entries[j].name
  }

  /** A signable entry: not refused and not validly signed by this key. */
  predicate Wants(w: World, e: Entry, sigs: map<Bytes, Signature>) { !Current(w, e, sigs) && !w.refuses(e) }

  lemma {:induction false} SignableAreThoseThatWant(w: World, entries: seq<Entry>, sigs: map<Bytes, Signature>)
    ensures forall p <- Signable(Plan(w, entries, sigs)) :: p.entry in entries && Wants(w, p.entry, sigs)
    ensures forall e <- entries :: Wants(w, e, sigs) ==> exists p <- Signable(Plan(w, entries, sigs)) :: p.entry == e
  {
    if entries != [] {
      SignableAreThoseThatWant(w, entries[1..], sigs);
      SignableConcat(Item(w, entries[0], sigs), Plan(w, entries[1..], sigs));
      ItemSays(w, entries[0], sigs);
      OneMore(w, entries, sigs, Signable(Item(w, entries[0], sigs)), Signable(Plan(w, entries[1..], sigs)));
    }
  }

  lemma ItemSays(w: World, e: Entry, sigs: map<Bytes, Signature>)
    ensures var s := Signable(Item(w, e, sigs));
            if Wants(w, e, sigs) then |s| == 1 && s[0].entry == e else s == []
  {
    SignableOne(PlanEntry(e, StateOf(w, e, sigs), w.refuses(e)));
  }

  lemma SignableOne(p: PlanEntry)
    ensures Signable([p]) == if p.refused then [] else [p]
  {
    assert [p][1..] == [];
  }

  lemma OneMore(w: World, entries: seq<Entry>, sigs: map<Bytes, Signature>, s: seq<PlanEntry>, t: seq<PlanEntry>)
    requires entries != []
    requires if Wants(w, entries[0], sigs) then |s| == 1 && s[0].entry == entries[0] else s == []
    requires forall p <- t :: p.entry in entries[1..] && Wants(w, p.entry, sigs)
    requires forall e <- entries[1..] :: Wants(w, e, sigs) ==> exists p <- t :: p.entry == e
    ensures forall p <- s + t :: p.entry in entries && Wants(w, p.entry, sigs)
    ensures forall e <- entries :: Wants(w, e, sigs) ==> exists p <- s + t :: p.entry == e
  {
    forall e <- entries | Wants(w, e, sigs) ensures exists p <- s + t :: p.entry == e {
      if e == entries[0] {
        assert s[0] in s + t;
      } else {
        assert e in entries[1..];
        var p :| p in t && p.entry == e;
        assert p in s + t;
      }
    }
  }

  /** Signed names hold a fresh signature of an entry of that name; the rest are
      as they were. */
  lemma {:induction false} StoredSays(w: World, sigs: map<Bytes, Signature>, ps: seq<PlanEntry>, name: Bytes)
    ensures (forall p <- ps :: p.entry.name != name) ==>
              (name in Stored(w, sigs, ps) <==> name in sigs)
              && (name in sigs ==> Stored(w, sigs, ps)[name] == sigs[name])
    ensures (exists p <- ps :: p.entry.name == name) ==>
              name in Stored(w, sigs, ps) && exists p <- ps :: p.entry.name == name
                                                               && Stored(w, sigs, ps)[name] == Sign(w, p.entry)
  {
    if ps != [] {
      var last := ps[|ps| - 1];
      var front := ps[..|ps| - 1];
      assert ps == front + [last];
      StoredSays(w, sigs, front, name);
      assert last in ps;
    }
  }

  /** Ed25519 as it is relied on: a fresh signature verifies under its own key
      and no other, and keys and signatures have their sizes. */
  ghost predicate SignsSoundly(w: World) {
    && |w.pub| == 32
    && (forall m :: |w.sign(m)| == 64)
    && (forall k, m :: w.verify(k, m, w.sign(m)) <==> k == w.pub)
  }

  lemma FreshVerifies(w: World, e: Entry)
    requires SignsSoundly(w)
    ensures Verifies(w, e, Sign(w, e)) <==> w.pub in w.trusted
  { }

  /** After a full run, an entry wants signing again exactly when it did before
      and the key is not trusted. */
  lemma WantsAgain(w: World, entries: seq<Entry>, sigs: map<Bytes, Signature>, e: Entry)
    requires SignsSoundly(w) && Distinct(entries) && e in entries
    ensures var after := Stored(w, sigs, Signable(Plan(w, entries, sigs)));
            Wants(w, e, after) <==> Wants(w, e, sigs) && w.pub !in w.trusted
  {
    var ps := Signable(Plan(w, entries, sigs));
    SignableAreThoseThatWant(w, entries, sigs);
    StoredSays(w, sigs, ps, e.name);
    forall p <- ps | p.entry.name == e.name ensures p.entry == e { }
    FreshVerifies(w, e);
  }

  /** A second run after a full first one finds nothing to sign if and only if
      the first found nothing or the key is trusted. */
  lemma RerunFindsNothing(w: World, entries: seq<Entry>, sigs: map<Bytes, Signature>)
    requires SignsSoundly(w) && Distinct(entries)
    ensures var first := Signable(Plan(w, entries, sigs));
            var after := Stored(w, sigs, first);
            Signable(Plan(w, entries, after)) == [] <==> first == [] || w.pub in w.trusted
  {
    var first := Signable(Plan(w, entries, sigs));
    var after := Stored(w, sigs, first);
    var second := Signable(Plan(w, entries, after));
    SignableAreThoseThatWant(w, entries, sigs);
    SignableAreThoseThatWant(w, entries, after);
    forall e <- entries ensures Wants(w, e, after) <==> Wants(w, e, sigs) && w.pub !in w.trusted {
      WantsAgain(w, entries, sigs, e);
    }
    if second != [] { assert second[0] in second; }
    if first != [] { assert first[0] in first; }
  }
}
