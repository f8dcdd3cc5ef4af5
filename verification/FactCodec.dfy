// Facts as bytes. A fact is stored with its id and the hash of its payload; both are hashes
// of canonical bytes, under a hash function that is given.

module FactCodec {
  import opened Wrappers
  import opened Model
  import opened Attributes
  import opened Programs
  import opened KeySort
  import opened CanonicalLists
  import Overlay
  import opened FactDerivation
  import opened Codec

  datatype Payload =
    | ObjectPayload(oid: ObjectId, name: string, typ: nat, existence: Existence)
    | PointerPayload(pointer: nat, from: ObjectId, to: ObjectId, relation: nat, role: Role, weight: Double,
                     bornAt: nat, expiresAt: Option<nat>, lawDomain: string)
    | AttributePayload(subject: Subject, key: string, value: Value)
    | EvidencePayload(evidence: nat, note: string)
    | LawPayload(law: string, passed: bool, input: nat, output: nat)

  // A fact as it is stored.
  datatype Record = Record(id: nat, kind: nat, born: nat, expired: Option<nat>, payloadHash: nat, payload: Payload)

  type Hasher = Bytes -> nat

  // ---- making a fact

  function PayloadOf(f: Fact): Payload {
    match f
    case ObjectFact(_, oid, name, typ, existence) => ObjectPayload(oid, name, typ, existence)
    case PointerFact(pointer, from, to, relation, role, weight, born, expires, domain) =>
      PointerPayload(pointer, from, to, relation, role, weight, born, expires, domain)
    case AttributeFact(subject, key, v, _, _) => AttributePayload(subject, key, v)
  }

  function FactKind(f: Fact): nat {
    match f case ObjectFact(_, _, _, _, _) => 0 case PointerFact(_, _, _, _, _, _, _, _, _) =>
      1 case AttributeFact(_, _, _, _, _) => 2
  }

  function BornOf(f: Fact): nat {
    match f case ObjectFact(_, _, _, _, _) => 0 case PointerFact(_, _, _, _, _, _, born, _, _) =>
      born case AttributeFact(_, _, _, since, _) => since
  }

  function ExpiredOf(f: Fact): Option<nat> {
    match f
    case ObjectFact(expired, _, _, _, _) => expired
    case PointerFact(_, _, _, _, _, _, _, expires, _) => expires
    case AttributeFact(_, _, _, _, until) => until
  }

  function WrittenSubject(s: Subject): Bytes {
    match s
    case ObjectSubject(oid) => Number(1, 0) + WrittenId(oid)
    case PointerSubject(pid) => Number(1, 1) + Number(8, pid)
  }

  // The fields of a payload, after what says its kind.
  function PayloadBody(p: Payload): Bytes {
    match p
    case ObjectPayload(oid, name, typ, existence) =>
      WrittenId(oid) + (Text(name) + (Number(4, typ) + Number(1, ExistenceCode(existence))))
    case PointerPayload(pointer, from, to, relation, role, weight, born, expires, domain) =>
      PointerHead(HeadPointer(p)) + (Number(8, weight) + (Number(8, born) + (WrittenExpiry(expires) + Text(domain))))
    case AttributePayload(subject, key, v) => WrittenSubject(subject) + (Text(key) + WrittenValue(v))
    case EvidencePayload(evidence, note) => Number(HASH_BYTES, evidence) + Text(note)
    case LawPayload(law, passed, input, output) =>
      Text(law) + (Number(1, if passed then 1 else 0) + (Number(HASH_BYTES, input) + Number(HASH_BYTES, output)))
  }

  // The pointer a payload is about.
  function HeadPointer(p: Payload): Pointer
    requires p.PointerPayload?
  {
    Pointer(p.pointer, p.from, p.to, p.relation, p.role, p.weight, p.bornAt, p.expiresAt, p.lawDomain, [])
  }

  function PayloadTag(p: Payload): string {
    match p
    case ObjectPayload(_, _, _, _) => "ObjectFactPayload:v1"
    case PointerPayload(_, _, _, _, _, _, _, _, _) => "PointerFactPayload:v1"
    case AttributePayload(_, _, _) => "AttributeFactPayload:v1"
    case EvidencePayload(_, _) => "EvidenceFactPayload:v1"
    case LawPayload(_, _, _, _) => "LawFactPayload:v1"
  }

  function HashedPayload(p: Payload): Bytes {
    Text(PayloadTag(p)) + PayloadBody(p)
  }

  const FACT_TAG: string := "FactId:v1"

  function HashedFact(kind: nat, born: nat, expired: Option<nat>, payloadHash: nat): Bytes {
    Text(FACT_TAG) + (Number(1, kind) + (Number(8, born) + (WrittenExpiry(expired) + Number(HASH_BYTES, payloadHash))))
  }

  function MakeFact(h: Hasher, f: Fact): Record {
    var payload := PayloadOf(f);
    var payloadHash := h(HashedPayload(payload));
    Record(h(HashedFact(FactKind(f), BornOf(f), ExpiredOf(f), payloadHash)), FactKind(f), BornOf(f), ExpiredOf(f),
      payloadHash, payload)
  }

  // ---- bytes

  function PayloadCode(p: Payload): nat {
    match p
    case ObjectPayload(_, _, _, _) => 0
    case PointerPayload(_, _, _, _, _, _, _, _, _) => 1
    case AttributePayload(_, _, _) => 2
    case EvidencePayload(_, _) => 3
    case LawPayload(_, _, _, _) => 4
  }

  function WrittenPayload(p: Payload): Bytes {
    Number(1, PayloadCode(p)) + PayloadBody(p)
  }

  function WrittenRecord(r: Record): Bytes {
    Number(HASH_BYTES, r.id) + (Number(1, r.kind) + (Number(8, r.born) + (WrittenExpiry(r.expired) +
    (Number(HASH_BYTES, r.payloadHash) + WrittenPayload(r.payload)))))
  }

  function ReadHash(b: Bytes): Got<nat> {
    ReadNumber(HASH_BYTES, b)
  }

  function Read1(b: Bytes): Got<nat> {
    ReadNumber(1, b)
  }

  function ReadSubject(b: Bytes): Got<Subject> {
    match ReadNumber(1, b)
    case Failed => Failed
    case Got(tag, rest) =>
      if tag == 0 then Mapped(ReadId(rest), oid => ObjectSubject(oid))
      else if tag == 1 then Mapped(ReadNumber(8, rest), (pid: nat) => PointerSubject(pid))
      else Failed
  }

  function ReadObjectPayload(b: Bytes): Got<Payload> {
    match Both(ReadId, ReadText, b)
    case Failed => Failed
    case Got((oid, name), rest) =>
      Mapped(Both(Read4, ReadExistence, rest), (t: (nat, Existence)) => ObjectPayload(oid, name, t.0, t.1))
  }

  function ReadPointerPayload(b: Bytes): Got<Payload> {
    match ReadHead(b)
    case Failed => Failed
    case Got(head, b1) =>
      match Both(Read8, Read8, b1)
      case Failed => Failed
      case Got((weight, born), b2) =>
        Mapped(Both(ReadExpiry, ReadText, b2), (t: (Option<nat>, string)) =>
          PointerPayload(head.id, head.from, head.to, head.relation, head.role, weight, born, t.0, t.1))
  }

  function ReadAttributePayload(b: Bytes): Got<Payload> {
    match ReadSubject(b)
    case Failed => Failed
    case Got(subject, rest) => Mapped(Both(ReadText, ReadValue, rest),
      (t: (string, Value)) => AttributePayload(subject, t.0, t.1))
  }

  function ReadLawPayload(b: Bytes): Got<Payload> {
    match Both(ReadText, Read1, b)
    case Failed => Failed
    case Got((law, passed), rest) =>
      Mapped(Both(ReadHash, ReadHash, rest), (t: (nat, nat)) => LawPayload(law, passed != 0, t.0, t.1))
  }

  function ReadPayloadBody(code: nat, b: Bytes): Got<Payload> {
    match code
    case 0 => ReadObjectPayload(b)
    case 1 => ReadPointerPayload(b)
    case 2 => ReadAttributePayload(b)
    case 3 => Mapped(Both(ReadHash, ReadText, b), (t: (nat, string)) => EvidencePayload(t.0, t.1))
    case 4 => ReadLawPayload(b)
    case _ => Failed
  }

  function ReadPayload(b: Bytes): Got<Payload> {
    match ReadNumber(1, b)
    case Failed => Failed
    case Got(code, rest) => ReadPayloadBody(code, rest)
  }

  function ReadRecord(b: Bytes): Got<Record> {
    match Both(ReadHash, Read1, b)
    case Failed => Failed
    case Got((id, kind), rest) => ReadContent(id, kind, rest)
  }

  // What comes after the id and the kind.
  function ReadContent(id: nat, kind: nat, b: Bytes): Got<Record> {
    match Both(Read8, ReadExpiry, b)
    case Failed => Failed
    case Got((born, expired), rest) =>
      Mapped(Both(ReadHash, ReadPayload, rest), (t: (nat, Payload)) => Record(id, kind, born, expired, t.0, t.1))
  }

  // ---- the round trip

  predicate ExpiryFits(e: Option<nat>) {
    e.Some? ==> e.value < Size(8)
  }

  // The widths of the fields: what their types allow.
  predicate PayloadFits(p: Payload) {
    match p
    case ObjectPayload(oid, name, typ, _) => IdFits(oid) && ByteText(name) && typ < Size(4)
    case PointerPayload(_, _, _, _, _, _, _, _, _) => PointerFits(HeadPointer(p))
    case AttributePayload(subject, key, v) =>
      && (match subject case ObjectSubject(oid) => IdFits(oid) case PointerSubject(pid) => pid < Size(8))
      && ByteText(key) && ValueFits(v)
    case EvidencePayload(evidence, note) => evidence < Size(HASH_BYTES) && ByteText(note)
    case LawPayload(law, _, input, output) => ByteText(law) && input < Size(HASH_BYTES) && output < Size(HASH_BYTES)
  }

  predicate RecordFits(r: Record) {
    && r.id < Size(HASH_BYTES) && r.kind < Size(1) && r.born < Size(8) && ExpiryFits(r.expired)
    && r.payloadHash < Size(HASH_BYTES) && PayloadFits(r.payload)
  }

  lemma SubjectRead(s: Subject, rest: Bytes)
    requires match s case ObjectSubject(oid) => IdFits(oid) case PointerSubject(pid) => pid < Size(8)
    ensures ReadSubject(WrittenSubject(s) + rest) == Got(s, rest)
  {
    hide Number, ReadNumber, WrittenId, ReadId;
    assert Size(1) == 256;
    match s
    case ObjectSubject(oid) =>
      assert WrittenSubject(s) + rest == Number(1, 0) + (WrittenId(oid) + rest);
      NumberRead(1, 0, WrittenId(oid) + rest);
      IdRead(oid, rest);
    case PointerSubject(pid) =>
      assert WrittenSubject(s) + rest == Number(1, 1) + (Number(8, pid) + rest);
      NumberRead(1, 1, Number(8, pid) + rest);
      NumberRead(8, pid, rest);
  }

  lemma ObjectPayloadRead(p: Payload, rest: Bytes)
    requires p.ObjectPayload? && PayloadFits(p)
    ensures ReadObjectPayload(PayloadBody(p) + rest) == Got(p, rest)
  {
    hide Number, ReadNumber, WrittenId, ReadId, Text, ReadText, IdFits, ByteText, Size, ExistenceCode, ExistenceOf;
    var n2 := Number(1, ExistenceCode(p.existence)) + rest;
    var n1 := Number(4, p.typ) + n2;
    var n0 := Text(p.name) + n1;
    assert PayloadBody(p) + rest == WrittenId(p.oid) + n0;
    IdRead(p.oid, n0);
    TextRead(p.name, n1);
    NumberRead(4, p.typ, n2);
    ExistenceRead(p.existence, rest);
  }

  lemma PointerPayloadRead(p: Payload, rest: Bytes)
    requires p.PointerPayload? && PayloadFits(p)
    ensures ReadPointerPayload(PayloadBody(p) + rest) == Got(p, rest)
  {
    hide Number, ReadNumber, PointerHead, ReadHead, Text, ReadText, IdFits, ByteText, Size, WrittenExpiry, ReadExpiry,
         AttributesFit;
    var n3 := Text(p.lawDomain) + rest;
    var n2 := WrittenExpiry(p.expiresAt) + n3;
    var n1 := Number(8, p.bornAt) + n2;
    var n0 := Number(8, p.weight) + n1;
    assert PayloadBody(p) + rest == PointerHead(HeadPointer(p)) + n0;
    HeadRead(HeadPointer(p), n0);
    NumberRead(8, p.weight, n1);
    NumberRead(8, p.bornAt, n2);
    ExpiryRead(p.expiresAt, n3);
    TextRead(p.lawDomain, rest);
  }

  lemma AttributePayloadRead(p: Payload, rest: Bytes)
    requires p.AttributePayload? && PayloadFits(p)
    ensures ReadAttributePayload(PayloadBody(p) + rest) == Got(p, rest)
  {
    hide Number, ReadNumber, WrittenSubject, ReadSubject, Text, ReadText, IdFits, ByteText, Size, WrittenValue,
         ReadValue, ValueFits;
    var n1 := WrittenValue(p.value) + rest;
    var n0 := Text(p.key) + n1;
    assert PayloadBody(p) + rest == WrittenSubject(p.subject) + n0;
    SubjectRead(p.subject, n0);
    TextRead(p.key, n1);
    ValueRead(p.value, rest);
  }

  lemma LawBody(p: Payload, flag: nat, rest: Bytes)
    requires p.LawPayload? && flag == if p.passed then 1 else 0
    ensures PayloadBody(p) + rest ==
            Text(p.law) + (Number(1, flag) + (Number(HASH_BYTES, p.input) + (Number(HASH_BYTES, p.output) + rest)))
  {
    hide Number, Text;
  }

  lemma LawFits(p: Payload)
    requires p.LawPayload? && PayloadFits(p)
    ensures ByteText(p.law) && p.input < Size(HASH_BYTES) && p.output < Size(HASH_BYTES) && 1 < Size(1)
  {
    hide ByteText;
  }

  lemma LawPayloadRead(p: Payload, rest: Bytes)
    requires p.LawPayload? && PayloadFits(p)
    ensures ReadLawPayload(PayloadBody(p) + rest) == Got(p, rest)
  {
    hide Number, ReadNumber, Text, ReadText, ByteText, Size, PayloadFits, PayloadBody;
    LawFits(p);
    var n2 := Number(HASH_BYTES, p.output) + rest;
    var n1 := Number(HASH_BYTES, p.input) + n2;
    var flag: nat := if p.passed then 1 else 0;
    var n0 := Number(1, flag) + n1;
    LawBody(p, flag, rest);
    TextRead(p.law, n0);
    NumberRead(1, flag, n1);
    NumberRead(HASH_BYTES, p.input, n2);
    NumberRead(HASH_BYTES, p.output, rest);
  }

  lemma OneByte(n: nat)
    ensures n < 256 ==> n < Size(1)
  {
  }

  lemma PayloadRead(p: Payload, rest: Bytes)
    requires PayloadFits(p)
    ensures ReadPayload(WrittenPayload(p) + rest) == Got(p, rest)
  {
    OneByte(PayloadCode(p));
    hide Number, ReadNumber, PayloadBody, Text, ReadText, ReadObjectPayload, ReadPointerPayload, ReadAttributePayload,
         ReadLawPayload, PayloadFits, Size;
    var body := PayloadBody(p) + rest;
    assert WrittenPayload(p) + rest == Number(1, PayloadCode(p)) + body;
    NumberRead(1, PayloadCode(p), body);
    match p
    case ObjectPayload(_, _, _, _) => ObjectPayloadRead(p, rest);
    case PointerPayload(_, _, _, _, _, _, _, _, _) => PointerPayloadRead(p, rest);
    case AttributePayload(_, _, _) => AttributePayloadRead(p, rest);
    case EvidencePayload(_, _) => EvidenceRead(p, rest);
    case LawPayload(_, _, _, _) => LawPayloadRead(p, rest);
  }

  lemma EvidenceRead(p: Payload, rest: Bytes)
    requires p.EvidencePayload? && PayloadFits(p)
    ensures ReadPayloadBody(3, PayloadBody(p) + rest) == Got(p, rest)
  {
    hide Number, ReadNumber, Text, ReadText, ByteText, Size, Both;
    NumberRead(HASH_BYTES, p.evidence, Text(p.note) + rest);
    TextRead(p.note, rest);
    BothRead(Number(HASH_BYTES, p.evidence), Text(p.note), rest, ReadHash, ReadText, p.evidence, p.note);
  }

  lemma RecordRead(r: Record)
    requires RecordFits(r)
    ensures Reads(WrittenRecord, ReadRecord, r)
  {
    hide Number, ReadNumber, WrittenPayload, ReadPayload, WrittenExpiry, ReadExpiry, PayloadFits, Size;
    forall rest: Bytes ensures ReadRecord(WrittenRecord(r) + rest) == Got(r, rest) {
      var n4 := WrittenPayload(r.payload) + rest;
      var n3 := Number(HASH_BYTES, r.payloadHash) + n4;
      var n2 := WrittenExpiry(r.expired) + n3;
      var n1 := Number(8, r.born) + n2;
      var n0 := Number(1, r.kind) + n1;
      assert WrittenRecord(r) + rest == Number(HASH_BYTES, r.id) + n0;
      NumberRead(HASH_BYTES, r.id, n0);
      NumberRead(1, r.kind, n1);
      NumberRead(8, r.born, n2);
      ExpiryRead(r.expired, n3);
      NumberRead(HASH_BYTES, r.payloadHash, n4);
      PayloadRead(r.payload, rest);
    }
  }

  // ---- the facts of a snapshot

  function RecordKey(r: Record): Key {
    (r.id, 0)
  }

  function Made(h: Hasher, facts: seq<Fact>): seq<Record> {
    seq(|facts|, i requires 0 <= i < |facts| => MakeFact(h, facts[i]))
  }

  // In the order of their ids.
  function Records(h: Hasher, s: Snapshot): seq<Record> {
    Arranged(RecordKey, Made(h, FactList(s)))
  }

  // Hashes have 32 bytes.
  ghost predicate Hashing(h: Hasher) {
    forall b :: h(b) < Size(HASH_BYTES)
  }

  ghost predicate FactFits(f: Fact) {
    PayloadFits(PayloadOf(f)) && BornOf(f) < Size(8) && ExpiryFits(ExpiredOf(f))
  }

  lemma MadeFits(h: Hasher, f: Fact)
    requires Hashing(h) && FactFits(f)
    ensures RecordFits(MakeFact(h, f))
  {
    OneByte(FactKind(f));
    hide PayloadFits, PayloadOf, HashedPayload, HashedFact, Size;
  }

  lemma ObjectFactFits(s: Snapshot, o: Object, f: Fact)
    requires ObjectFits(o) && s.epoch < Size(8) && f in Overlay.ObjectFacts(s, o)
    ensures FactFits(f)
  {
    assert Size(8) > 0;
    hide IdFits, ByteText, ValueFits, Size;
    if a :| a in o.attributes && f == AttributeFact(ObjectSubject(o.id), a.key, a.value, 0, None) {
      var i :| 0 <= i < |o.attributes| && o.attributes[i] == a;
      assert AttributeFits(o.attributes[i]);
    }
  }

  lemma PointerFactFits(p: Pointer, f: Fact)
    requires PointerFits(p) && f in Overlay.PointerFacts(p)
    ensures FactFits(f)
  {
    assert Size(8) > 0;
    hide IdFits, ByteText, ValueFits, Size;
    if a :| a in p.attributes && f == AttributeFact(PointerSubject(p.id), a.key, a.value, p.bornAt, p.expiresAt) {
      var i :| 0 <= i < |p.attributes| && p.attributes[i] == a;
      assert AttributeFits(p.attributes[i]);
    }
  }

  // The stored facts of a snapshot whose fields fit are read back.
  lemma RecordsRead(h: Hasher, s: Snapshot, rest: Bytes)
    requires Hashing(h) && s.epoch < Size(8) && |FactList(s)| < Size(8)
    requires (forall o :: o in s.objects ==> ObjectFits(o)) && (forall p :: p in s.pointers ==> PointerFits(p))
    ensures ReadCounted(ReadRecord, Counted(WrittenRecord, Records(h, s)) + rest) == Got(Records(h, s), rest)
  {
    hide Arranged, Ascending, Size, Reads, Counted, ReadCounted, WrittenRecord, ReadRecord, FactList, MakeFact,
         RecordFits, ObjectFits,
         PointerFits, Overlay.ObjectFacts, Overlay.PointerFacts, FactFits, Overlay.Facts;
    var facts := FactList(s);
    var made := Made(h, facts);
    ArrangedSorts(RecordKey, made);
    forall r | r in Records(h, s) ensures Reads(WrittenRecord, ReadRecord, r) {
      assert r in made;
      var i :| 0 <= i < |made| && made[i] == r;
      FactStated(s, facts[i]);
      MadeFits(h, facts[i]);
      RecordRead(r);
    }
    CountedRead(WrittenRecord, ReadRecord, Records(h, s), rest);
  }

  lemma FactStated(s: Snapshot, f: Fact)
    requires s.epoch < Size(8) && f in FactList(s)
    requires (forall o :: o in s.objects ==> ObjectFits(o)) && (forall p :: p in s.pointers ==> PointerFits(p))
    ensures FactFits(f)
  {
    hide FactList, Overlay.Facts, Overlay.ObjectFacts, Overlay.PointerFacts, FactFits, ObjectFits, PointerFits, Size;
    ListSaysFacts(s, f);
    InFacts(s, f);
    if o :| o in s.objects && f in Overlay.ObjectFacts(s, o) {
      ObjectFactFits(s, o, f);
    } else {
      var p :| p in s.pointers && f in Overlay.PointerFacts(p);
      PointerFactFits(p, f);
    }
  }
}
