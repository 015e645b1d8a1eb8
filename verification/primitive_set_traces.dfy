/**
 * Whole assembly sequences: a caller feeding the keys of a keyset one by one into
 * a fresh builder, as the primitive wrappers do, and then building.
 */
module PrimitiveSetTraces {
  import opened Wrappers
  import opened Exceptions
  import opened Keysets
  import opened PrimitiveSets

  /** One call of `addEntry`: the primitive (None for null), the key, the proto key, the primary flag. */
  datatype AddRequest<P, K, M> = AddRequest(fullPrimitive: Option<P>, key: K, protoKey: ProtoKey<M>, asPrimary: bool)

  predicate RequestAdmissible<P, K, M>(req: AddRequest<P, K, M>)
  {
    req.fullPrimitive.Some? && req.protoKey.status == StatusEnabled
  }

  function CountAsPrimary<P, K, M>(reqs: seq<AddRequest<P, K, M>>): nat
  {
    if reqs == [] then 0
    else (if reqs[0].asPrimary then 1 else 0) + CountAsPrimary(reqs[1..])
  }

  /** Issues the requests in order and stops at the first one that throws. */
  function AddAll<P, K, A, C, M>(
    b: Builder<P, K, A, C>, reqs: seq<AddRequest<P, K, M>>, prefixOf: ProtoKey<M> -> Prefix)
    : Update<P, K, A, C>
    decreases |reqs|
  {
    if reqs == [] then Update(b, Pass)
    else
      var u := AddEntry(b, reqs[0].fullPrimitive, reqs[0].key, reqs[0].protoKey, reqs[0].asPrimary, prefixOf);
      if u.outcome.Fail? then u else AddAll(u.builder, reqs[1..], prefixOf)
  }

  /** The shape of one add on a live builder: when it returns, and what it appends and records. */
  lemma AddStepShape<P, K, A, C, M>(b: Builder<P, K, A, C>, q: AddRequest<P, K, M>, prefixOf: ProtoKey<M> -> Prefix)
    requires b.IsLive()
    ensures var u := AddEntry(b, q.fullPrimitive, q.key, q.protoKey, q.asPrimary, prefixOf);
            && (u.outcome.Pass? <==> RequestAdmissible(q) && !(q.asPrimary && b.primary.Some?))
            && (u.outcome.Pass? ==>
                  && u.builder.IsLive()
                  && u.builder.annotations == b.annotations
                  && u.builder.primitiveClass == b.primitiveClass
                  && u.builder.entriesInKeysetOrder == b.entriesInKeysetOrder +
                       [EntryFor(q.fullPrimitive.value, q.key, q.protoKey, q.asPrimary, prefixOf)]
                  && u.builder.primary ==
                       if q.asPrimary then Some(EntryFor(q.fullPrimitive.value, q.key, q.protoKey, q.asPrimary, prefixOf))
                       else b.primary)
  {
  }

  /** One accepted or refused add, summarised for the inductions below. */
  lemma AddStep<P, K, A, C, M>(b: Builder<P, K, A, C>, q: AddRequest<P, K, M>, prefixOf: ProtoKey<M> -> Prefix)
    requires b.IsLive() && ValidBuilder(b) && SinglePrimary(b.entriesInKeysetOrder, b.primary)
    ensures var u := AddEntry(b, q.fullPrimitive, q.key, q.protoKey, q.asPrimary, prefixOf);
            && (u.outcome.Pass? <==> RequestAdmissible(q) && !(q.asPrimary && b.primary.Some?))
            && (u.outcome.Pass? ==>
                  && u.builder.IsLive() && ValidBuilder(u.builder)
                  && SinglePrimary(u.builder.entriesInKeysetOrder, u.builder.primary)
                  && u.builder.entriesInKeysetOrder == b.entriesInKeysetOrder +
                       [EntryFor(q.fullPrimitive.value, q.key, q.protoKey, q.asPrimary, prefixOf)]
                  && u.builder.primary ==
                       if q.asPrimary then Some(EntryFor(q.fullPrimitive.value, q.key, q.protoKey, q.asPrimary, prefixOf))
                       else b.primary)
  {
    AddEntryKeepsValid(b, q.fullPrimitive, q.key, q.protoKey, q.asPrimary, prefixOf);
    AddEntryPrimaryFlags(b, q.fullPrimitive, q.key, q.protoKey, q.asPrimary, prefixOf);
    var u := AddEntry(b, q.fullPrimitive, q.key, q.protoKey, q.asPrimary, prefixOf);
    if u.outcome.Pass? {
      var n := |b.entriesInKeysetOrder|;
      var s := u.builder.entriesInKeysetOrder;
      assert s == s[..n] + [s[n]];
    }
  }

  /** A sequence of adds from a valid live builder leaves a valid live builder with one primary flag per primary. */
  lemma {:induction false} AddAllKeepsValid<P, K, A, C, M>(
    b: Builder<P, K, A, C>, reqs: seq<AddRequest<P, K, M>>, prefixOf: ProtoKey<M> -> Prefix)
    requires b.IsLive() && ValidBuilder(b) && SinglePrimary(b.entriesInKeysetOrder, b.primary)
    decreases |reqs|
    ensures var r := AddAll(b, reqs, prefixOf);
            r.outcome.Pass? ==>
              r.builder.IsLive() && ValidBuilder(r.builder) && SinglePrimary(r.builder.entriesInKeysetOrder, r.builder.primary)
  {
    if reqs != [] {
      AddStep(b, reqs[0], prefixOf);
      var u := AddEntry(b, reqs[0].fullPrimitive, reqs[0].key, reqs[0].protoKey, reqs[0].asPrimary, prefixOf);
      if u.outcome.Pass? {
        AddAllKeepsValid(u.builder, reqs[1..], prefixOf);
      }
    }
  }

  lemma AdmissibleSplit<P, K, M>(reqs: seq<AddRequest<P, K, M>>)
    requires reqs != []
    ensures (forall i :: 0 <= i < |reqs| ==> RequestAdmissible(reqs[i])) <==>
            RequestAdmissible(reqs[0]) && (forall i :: 0 <= i < |reqs[1..]| ==> RequestAdmissible(reqs[1..][i]))
  {
    assert forall i :: 0 <= i < |reqs[1..]| ==> reqs[1..][i] == reqs[i + 1];
  }

  /**
   * A sequence of adds succeeds exactly when every request has a primitive and an
   * ENABLED key and at most one primary is asked for in all, counting one
   * already recorded.
   */
  lemma {:induction false} AddAllSucceedsIff<P, K, A, C, M>(
    b: Builder<P, K, A, C>, reqs: seq<AddRequest<P, K, M>>, prefixOf: ProtoKey<M> -> Prefix)
    requires b.IsLive()
    decreases |reqs|
    ensures AddAll(b, reqs, prefixOf).outcome.Pass? <==>
              && (forall i :: 0 <= i < |reqs| ==> RequestAdmissible(reqs[i]))
              && CountAsPrimary(reqs) + (if b.primary.Some? then 1 else 0) <= 1
  {
    if reqs != [] {
      var q := reqs[0];
      var rest := reqs[1..];
      AddStepShape(b, q, prefixOf);
      AdmissibleSplit(reqs);
      var u := AddEntry(b, q.fullPrimitive, q.key, q.protoKey, q.asPrimary, prefixOf);
      if u.outcome.Pass? {
        AddAllSucceedsIff(u.builder, rest, prefixOf);
      }
    }
  }

  /** The entries `addEntry` creates for the requests, in request order. */
  function EntriesFor<P, K, M>(reqs: seq<AddRequest<P, K, M>>, prefixOf: ProtoKey<M> -> Prefix): seq<Entry<P, K>>
    requires forall i :: 0 <= i < |reqs| ==> reqs[i].fullPrimitive.Some?
  {
    if reqs == [] then []
    else [EntryFor(reqs[0].fullPrimitive.value, reqs[0].key, reqs[0].protoKey, reqs[0].asPrimary, prefixOf)]
         + EntriesFor(reqs[1..], prefixOf)
  }

  lemma {:induction false} EntriesForLength<P, K, M>(reqs: seq<AddRequest<P, K, M>>, prefixOf: ProtoKey<M> -> Prefix)
    requires forall i :: 0 <= i < |reqs| ==> reqs[i].fullPrimitive.Some?
    ensures |EntriesFor(reqs, prefixOf)| == |reqs|
    ensures forall i :: 0 <= i < |reqs| ==>
              EntriesFor(reqs, prefixOf)[i] ==
              EntryFor(reqs[i].fullPrimitive.value, reqs[i].key, reqs[i].protoKey, reqs[i].asPrimary, prefixOf)
  {
    if reqs != [] {
      EntriesForLength(reqs[1..], prefixOf);
      forall i | 1 <= i < |reqs|
        ensures EntriesFor(reqs, prefixOf)[i] == EntriesFor(reqs[1..], prefixOf)[i - 1]
      {
      }
    }
  }

  /** A successful sequence of adds appends one entry per request, in request order. */
  lemma {:induction false} AddAllAppends<P, K, A, C, M>(
    b: Builder<P, K, A, C>, reqs: seq<AddRequest<P, K, M>>, prefixOf: ProtoKey<M> -> Prefix)
    requires b.IsLive()
    requires AddAll(b, reqs, prefixOf).outcome.Pass?
    decreases |reqs|
    ensures forall i :: 0 <= i < |reqs| ==> reqs[i].fullPrimitive.Some?
    ensures AddAll(b, reqs, prefixOf).builder.entriesInKeysetOrder ==
              b.entriesInKeysetOrder + EntriesFor(reqs, prefixOf)
    ensures AddAll(b, reqs, prefixOf).builder.annotations == b.annotations
    ensures AddAll(b, reqs, prefixOf).builder.primitiveClass == b.primitiveClass
  {
    AddAllSucceedsIff(b, reqs, prefixOf);
    if reqs != [] {
      var q := reqs[0];
      AddStepShape(b, q, prefixOf);
      var u := AddEntry(b, q.fullPrimitive, q.key, q.protoKey, q.asPrimary, prefixOf);
      AddAllAppends(u.builder, reqs[1..], prefixOf);
      var e := EntryFor(q.fullPrimitive.value, q.key, q.protoKey, q.asPrimary, prefixOf);
      assert (b.entriesInKeysetOrder + [e]) + EntriesFor(reqs[1..], prefixOf)
          == b.entriesInKeysetOrder + ([e] + EntriesFor(reqs[1..], prefixOf));
    }
  }

  /**
   * The primary a successful sequence of adds ends with: the one already recorded, else
   * the entry of the request that asked to be primary, else none.
   */
  lemma {:induction false} AddAllRecordsPrimary<P, K, A, C, M>(
    b: Builder<P, K, A, C>, reqs: seq<AddRequest<P, K, M>>, prefixOf: ProtoKey<M> -> Prefix)
    requires b.IsLive()
    requires AddAll(b, reqs, prefixOf).outcome.Pass?
    decreases |reqs|
    ensures forall i :: 0 <= i < |reqs| ==> reqs[i].fullPrimitive.Some?
    ensures var r := AddAll(b, reqs, prefixOf).builder;
            && (b.primary.Some? ==> r.primary == b.primary)
            && (CountAsPrimary(reqs) == 0 ==> r.primary == b.primary)
            && (forall i :: 0 <= i < |reqs| && reqs[i].asPrimary ==>
                  r.primary == Some(EntryFor(reqs[i].fullPrimitive.value, reqs[i].key, reqs[i].protoKey,
                                             reqs[i].asPrimary, prefixOf)))
  {
    AddAllSucceedsIff(b, reqs, prefixOf);
    if reqs != [] {
      var q := reqs[0];
      var rest := reqs[1..];
      AddStepShape(b, q, prefixOf);
      var u := AddEntry(b, q.fullPrimitive, q.key, q.protoKey, q.asPrimary, prefixOf);
      AddAllRecordsPrimary(u.builder, rest, prefixOf);
      forall i | 1 <= i < |reqs| && reqs[i].asPrimary
        ensures !q.asPrimary
      {
        assert reqs[i] == rest[i - 1];
        CountAsPrimaryPositive(rest, i - 1);
      }
    }
  }

  lemma {:induction false} CountAsPrimaryPositive<P, K, M>(reqs: seq<AddRequest<P, K, M>>, i: int)
    requires 0 <= i < |reqs| && reqs[i].asPrimary
    ensures CountAsPrimary(reqs) >= 1
  {
    if i > 0 {
      CountAsPrimaryPositive(reqs[1..], i - 1);
    }
  }

  /**
   * Building after a successful sequence of adds from a fresh builder yields a set whose
   * keyset-order list holds one entry per request in request order, whose
   * buckets are that list split by prefix, and whose one primary-flagged
   * entry is the recorded primary.
   */
  lemma BuildAfterAdds<P, K, A, C, M>(
    primitiveClass: C, emptyAnnotations: A, reqs: seq<AddRequest<P, K, M>>, prefixOf: ProtoKey<M> -> Prefix)
    requires AddAll(NewBuilder<P, K, A, C>(primitiveClass, emptyAnnotations), reqs, prefixOf).outcome.Pass?
    ensures var b := AddAll(NewBuilder<P, K, A, C>(primitiveClass, emptyAnnotations), reqs, prefixOf).builder;
            var built := Build(b);
            && built.result.Ok?
            && var ps := built.result.value;
            && ValidSet(ps)
            && SinglePrimary(ps.entriesInKeysetOrder, ps.primary)
            && CountAsPrimary(reqs) <= 1
            && ps.annotations == emptyAnnotations
            && (forall i :: 0 <= i < |reqs| ==> reqs[i].fullPrimitive.Some?)
            && GetAllInKeysetOrder(ps) == EntriesFor(reqs, prefixOf)
            && |GetAllInKeysetOrder(ps)| == |reqs|
            && (forall i :: 0 <= i < |reqs| && reqs[i].asPrimary ==> GetPrimary(ps) == Some(GetAllInKeysetOrder(ps)[i]))
  {
    var b0 := NewBuilder<P, K, A, C>(primitiveClass, emptyAnnotations);
    AddAllKeepsValid(b0, reqs, prefixOf);
    AddAllSucceedsIff(b0, reqs, prefixOf);
    AddAllAppends(b0, reqs, prefixOf);
    AddAllRecordsPrimary(b0, reqs, prefixOf);
    EntriesForLength(reqs, prefixOf);
  }

  /* ---------------------------------------------------------------------- */
  /* Worked examples                                                         */
  /* ---------------------------------------------------------------------- */

  /** Output prefix of the worked examples: the metadata character as one byte. */
  function TagPrefix(pk: ProtoKey<char>): Prefix
  {
    if pk.metadata == 'A' then [0x41] else [0x42]
  }

  function Keys(s: seq<Entry<int, int>>): seq<int32>
  {
    seq(|s|, i requires 0 <= i < |s| => s[i].keyId)
  }

  /**
   * Keys 1, 2, 3 with prefixes A, A, B and key 2 primary: the primary is key
   * 2, bucket A holds keys 1 and 2 in that order, bucket B key 3, and the
   * keyset order is 1, 2, 3.
   */
  lemma ThreeKeyExample()
    ensures var reqs := [AddRequest(Some(10), 1, ProtoKey('A', StatusEnabled, 1), false),
                         AddRequest(Some(20), 2, ProtoKey('A', StatusEnabled, 2), true),
                         AddRequest(Some(30), 3, ProtoKey('B', StatusEnabled, 3), false)];
            var u := AddAll(NewBuilder<int, int, string, string>("Aead", ""), reqs, TagPrefix);
            && u.outcome.Pass?
            && var ps := Build(u.builder).result;
            && ps.Ok?
            && GetPrimary(ps.value).Some? && GetPrimary(ps.value).value.keyId == 2
            && ps.value.entries.Keys == {[0x41], [0x42]}
            && Keys(ps.value.entries[[0x41]]) == [1, 2]
            && Keys(ps.value.entries[[0x42]]) == [3]
            && Keys(GetAllInKeysetOrder(ps.value)) == [1, 2, 3]
  {
  }

  /** A single DISABLED key is refused, and the set built afterwards is empty. */
  lemma DisabledKeyExample()
    ensures var b0 := NewBuilder<int, int, string, string>("Aead", "");
            var u := AddEntry(b0, Some(10), 1, ProtoKey('A', StatusDisabled, 1), false, TagPrefix);
            && u.outcome == Fail(GeneralSecurity(OnlyEnabled))
            && Build(u.builder).result.Ok?
            && GetAllInKeysetOrder(Build(u.builder).result.value) == []
            && GetAll(Build(u.builder).result.value) == {}
  {
  }

  /** Two primaries: the second add throws and the built set's primary is the first. */
  lemma TwoPrimaryExample()
    ensures var b0 := NewBuilder<int, int, string, string>("Aead", "");
            var u1 := AddPrimaryFullPrimitive(b0, Some(10), 1, ProtoKey('A', StatusEnabled, 1), TagPrefix);
            var u2 := AddPrimaryFullPrimitive(u1.builder, Some(20), 2, ProtoKey('B', StatusEnabled, 2), TagPrefix);
            && u1.outcome.Pass?
            && u2.outcome == Fail(IllegalState(TwoPrimaries))
            && Build(u2.builder).result.Ok?
            && GetPrimary(Build(u2.builder).result.value).value.keyId == 1
            && |GetAllInKeysetOrder(Build(u2.builder).result.value)| == 2
            && GetAllInKeysetOrder(Build(u2.builder).result.value)[1].isPrimary
  {
  }
}
