// A fact is addressed by its content: where the hash function does not collide on their bytes,
// facts with the same id are the same fact.

module ContentAddress {
  import opened Wrappers
  import opened Model
  import opened Codec
  import opened FactCodec

  // What a fact hashes, in the order in which it does.
  function PayloadBytes(f: Fact): Bytes {
    HashedPayload(PayloadOf(f))
  }

  function IdBytes(h: Hasher, f: Fact): Bytes {
    HashedFact(FactKind(f), BornOf(f), ExpiredOf(f), h(PayloadBytes(f)))
  }

  // The fields keep to their widths, and so does the hash of the payload.
  ghost predicate FactFits(h: Hasher, f: Fact) {
    && PayloadFits(PayloadOf(f)) && BornOf(f) < Size(8) && ExpiryFits(ExpiredOf(f))
    && h(PayloadBytes(f)) < Size(HASH_BYTES)
  }

  // The hash function does not collide on these bytes.
  ghost predicate Apart(h: Hasher, a: Bytes, b: Bytes) {
    h(a) == h(b) ==> a == b
  }

  lemma PayloadApart(p: Payload, q: Payload)
    requires PayloadFits(p) && PayloadFits(q) && HashedPayload(p) == HashedPayload(q)
    ensures p == q
  {
    hide Number, Text, ReadText, PayloadBody, PayloadFits, ReadPayload, Size;
    TagsFit(p);
    TagsFit(q);
    TextRead(PayloadTag(p), PayloadBody(p));
    TextRead(PayloadTag(q), PayloadBody(q));
    assert WrittenPayload(p) == WrittenPayload(q);
    PayloadRead(p, []);
    PayloadRead(q, []);
  }

  // The tags are plain text.
  lemma TagsFit(p: Payload)
    ensures ByteText(PayloadTag(p))
  {
    match p
    case ObjectPayload(_, _, _, _) => ObjectTag();
    case PointerPayload(_, _, _, _, _, _, _, _, _) => PointerTag();
    case AttributePayload(_, _, _) => AttributeTag();
    case EvidencePayload(_, _) => EvidenceTag();
    case LawPayload(_, _, _, _) => LawTag();
  }

  lemma ShortText(s: string)
    requires |s| < 256 && forall i :: 0 <= i < |s| ==> s[i] <= 'z'
    ensures ByteText(s)
  {
    assert Size(8) == 0x1_0000_0000_0000_0000;
    assert 'z' as int < 256;
  }

  lemma ObjectTag()
    ensures ByteText("ObjectFactPayload:v1")
  {
    ShortText("ObjectFactPayload:v1");
  }

  lemma PointerTag()
    ensures ByteText("PointerFactPayload:v1")
  {
    ShortText("PointerFactPayload:v1");
  }

  lemma AttributeTag()
    ensures ByteText("AttributeFactPayload:v1")
  {
    ShortText("AttributeFactPayload:v1");
  }

  lemma EvidenceTag()
    ensures ByteText("EvidenceFactPayload:v1")
  {
    ShortText("EvidenceFactPayload:v1");
  }

  lemma LawTag()
    ensures ByteText("LawFactPayload:v1")
  {
    ShortText("LawFactPayload:v1");
  }

  lemma FactTag()
    ensures ByteText(FACT_TAG)
  {
    ShortText("FactId:v1");
  }

  lemma FactApart(kind: nat, born: nat, expired: Option<nat>, payload: nat, kind': nat, born': nat,
                  expired': Option<nat>, payload': nat)
    requires kind < 256 && kind' < 256 && born < Size(8) && born' < Size(8) && ExpiryFits(expired)
    requires ExpiryFits(expired') && payload < Size(HASH_BYTES) && payload' < Size(HASH_BYTES)
    requires HashedFact(kind, born, expired, payload) == HashedFact(kind', born', expired', payload')
    ensures kind == kind' && born == born' && expired == expired' && payload == payload'
  {
    hide Number, Text, ReadText, ReadNumber, WrittenExpiry, ReadExpiry, Size;
    FactRead(kind, born, expired, payload);
    FactRead(kind', born', expired', payload');
  }

  // The fields can be read back off the bytes one after another.
  lemma FactRead(kind: nat, born: nat, expired: Option<nat>, payload: nat)
    requires kind < 256 && born < Size(8) && ExpiryFits(expired) && payload < Size(HASH_BYTES)
    ensures var b3 := Number(HASH_BYTES, payload);
            var b2 := WrittenExpiry(expired) + b3;
            var b1 := Number(8, born) + b2;
            var b0 := Number(1, kind) + b1;
            && ReadText(HashedFact(kind, born, expired, payload)) == Got(FACT_TAG, b0)
            && ReadNumber(1, b0) == Got(kind, b1) && ReadNumber(8, b1) == Got(born, b2)
            && ReadExpiry(b2) == Got(expired, b3) && ReadNumber(HASH_BYTES, b3) == Got(payload, [])
  {
    FactTag();
    assert Size(1) == 256;
    hide Number, Text, ReadText, ReadNumber, WrittenExpiry, ReadExpiry, Size;
    var b3 := Number(HASH_BYTES, payload);
    var b2 := WrittenExpiry(expired) + b3;
    var b1 := Number(8, born) + b2;
    TextRead(FACT_TAG, Number(1, kind) + b1);
    NumberRead(1, kind, b1);
    NumberRead(8, born, b2);
    ExpiryRead(expired, b3);
    NumberRead(HASH_BYTES, payload, []);
    assert b3 + [] == b3;
  }

  // Facts with the same id are the same, unless the hash function collides on what they hash.
  lemma ContentAddressed(h: Hasher, f: Fact, g: Fact)
    requires FactFits(h, f) && FactFits(h, g)
    requires Apart(h, PayloadBytes(f), PayloadBytes(g)) && Apart(h, IdBytes(h, f), IdBytes(h, g))
    ensures MakeFact(h, f).id == MakeFact(h, g).id <==> f == g
  {
    hide HashedFact, HashedPayload, PayloadFits, ExpiryFits, Size;
    if MakeFact(h, f).id == MakeFact(h, g).id {
      FactApart(FactKind(f), BornOf(f), ExpiredOf(f), h(PayloadBytes(f)), FactKind(g), BornOf(g), ExpiredOf(g),
        h(PayloadBytes(g)));
      PayloadApart(PayloadOf(f), PayloadOf(g));
    }
  }
}
