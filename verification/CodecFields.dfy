/** Typed lines: what both directions of src/libballotclient/codec.c put into a body and take out of it. */
module CodecFields {
  import opened Options
  import opened CodecBody

  const ID_LEN := 16
  const TITLE_LEN := 64
  const OPTION_LEN := 32
  const CERT_LEN := 32
  const TIME_LEN := 32
  const HASH_LEN := 65
  const NONCE_LEN := 33
  const MAX_OPTIONS := 16
  const MAX_VOTERS := 64
  const CIPHERTEXT_MAX := 256

  predicate Fits(s: string, size: nat) { |s| < size && NulFree(s) }

  predicate AllFit(names: seq<string>, size: nat)
  {
    forall i :: 0 <= i < |names| ==> Fits(names[i], size)
  }

  datatype Field = Field(key: Key, value: string)

  function Named(key: Key, names: seq<string>): (fields: seq<Field>)
    ensures |fields| == |names|
    ensures forall i :: 0 <= i < |fields| ==> fields[i] == Field(key, names[i])
  {
    seq(|names|, i requires 0 <= i < |names| => Field(key, names[i]))
  }

  function ToPairs(fields: seq<Field>): (pairs: seq<Pair>)
    ensures |pairs| == |fields|
    ensures forall i :: 0 <= i < |fields| ==> pairs[i] == Pair(KeyText(fields[i].key), fields[i].value)
  {
    seq(|fields|, i requires 0 <= i < |fields| => Pair(KeyText(fields[i].key), fields[i].value))
  }

  predicate AllUnbrokenFields(fields: seq<Field>)
  {
    forall i :: 0 <= i < |fields| ==> Unbroken(fields[i].value)
  }

  lemma PairsPlain(fields: seq<Field>)
    ensures AllPlain(ToPairs(fields))
    ensures AllUnbroken(ToPairs(fields)) <==> AllUnbrokenFields(fields)
  {
    var pairs := ToPairs(fields);
    forall i | 0 <= i < |pairs|
      ensures PlainKey(pairs[i].key) && pairs[i].value == fields[i].value
    {
      KeyIsPlain(fields[i].key);
    }
    if AllUnbroken(pairs) {
      assert forall i :: 0 <= i < |fields| ==> fields[i].value == pairs[i].value;
    }
  }

  lemma KeyShort(k: Key)
    ensures |KeyText(k)| <= 20
  {
  }

  lemma {:induction false} TextBound(fields: seq<Pair>, each: nat)
    requires forall i :: 0 <= i < |fields| ==> |FieldText(fields[i])| <= each
    ensures |FieldsText(fields)| <= |fields| * each
  {
    if fields != [] {
      TextBound(fields[1..], each);
    }
  }

  /** The lines whose key is known to the decoders. */
  function Known(pairs: seq<Pair>): seq<Field>
  {
    if pairs == [] then []
    else
      match KeyOf(pairs[0].key)
      case None => Known(pairs[1..])
      case Some(k) => [Field(k, pairs[0].value)] + Known(pairs[1..])
  }

  function Received(fields: seq<Field>): seq<Field>
  {
    if fields == [] then [] else [Field(fields[0].key, Cut(fields[0].value, VALUE_MAX))] + Received(fields[1..])
  }

  predicate AllShort(fields: seq<Field>)
  {
    forall i :: 0 <= i < |fields| ==> |fields[i].value| < VALUE_MAX
  }

  lemma {:induction false} ShortReceived(fields: seq<Field>)
    requires AllShort(fields)
    ensures Received(fields) == fields
  {
    if fields != [] {
      ShortReceived(fields[1..]);
      assert [fields[0]] + fields[1..] == fields;
    }
  }

  lemma {:induction false} KnownReceived(fields: seq<Field>)
    ensures Known(AllArrived(ToPairs(fields))) == Received(fields)
  {
    if fields != [] {
      KeyNamed(fields[0].key);
      assert ToPairs(fields)[1..] == ToPairs(fields[1..]);
      KnownReceived(fields[1..]);
      var pairs := AllArrived(ToPairs(fields));
      assert pairs[0] == Arrived(ToPairs(fields)[0]) && pairs[1..] == AllArrived(ToPairs(fields[1..]));
    }
  }

  predicate AllNulFreeFields(fields: seq<Field>)
  {
    forall i :: 0 <= i < |fields| ==> NulFree(fields[i].value)
  }

  /** The lines of an encoded body, as the decoder's callbacks get them. */
  lemma BodyReceived(fields: seq<Field>)
    requires AllUnbrokenFields(fields) && AllNulFreeFields(fields)
    ensures Known(Pairs(FieldsText(ToPairs(fields)))) == Received(fields)
  {
    PairsPlain(fields);
    assert AllNulFree(ToPairs(fields)) by {
      forall i | 0 <= i < |fields|
        ensures NulFree(ToPairs(fields)[i].value)
      {
        assert NulFree(fields[i].value);
      }
    }
    FieldsRead(ToPairs(fields));
    KnownReceived(fields);
  }
}
