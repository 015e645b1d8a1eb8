/**
 * Tink's `PrimitiveSet<P>`: the container of one primitive per enabled key of a
 * keyset, indexed by output prefix and in keyset order, with at most one
 * primary entry, assembled by a single-use `Builder` and immutable afterwards.
 *
 * Type parameters, all opaque:
 *   P  the primitive objects (Java erases the capability type at run time),
 *   K  Tink `Key` objects,
 *   A  `MonitoringAnnotations`,
 *   C  the `Class<P>` object of the set's capability type,
 *   M  the proto-key metadata `CryptoFormat.getOutputPrefix` reads.
 */
module PrimitiveSets {
  import opened Wrappers
  import opened Exceptions
  import opened Keysets

  /** An output prefix: the bytes a ciphertext or signature of the key starts with. */
  type Prefix = seq<byte>

  /** `PrimitiveSet.Entry`: one enabled key and the primitive built from it. */
  datatype Entry<P, K> = Entry(
    fullPrimitive: P,
    outputPrefix: Prefix,
    status: KeyStatus,
    keyId: int32,
    key: K,
    isPrimary: bool)

  /** The map from output prefix to the entries that have it. */
  type Buckets<P, K> = map<Prefix, seq<Entry<P, K>>>

  /** The frozen container. It has no operation that changes it. */
  datatype PrimitiveSet<P, K, A, C> = PrimitiveSet(
    entries: Buckets<P, K>,
    entriesInKeysetOrder: seq<Entry<P, K>>,
    primary: Option<Entry<P, K>>,
    annotations: A,
    primitiveClass: C)

  /**
   * `PrimitiveSet.Builder`. `entries == None` is the Java builder whose
   * `entries` field was set to null by `build()`: the builder is dead.
   */
  datatype Builder<P, K, A, C> = Builder(
    primitiveClass: C,
    entries: Option<Buckets<P, K>>,
    entriesInKeysetOrder: seq<Entry<P, K>>,
    primary: Option<Entry<P, K>>,
    annotations: A)
  {
    predicate IsLive() {
      entries.Some?
    }
  }

  /** The builder after a step, and whether the step returned or threw. */
  datatype Update<P, K, A, C> = Update(builder: Builder<P, K, A, C>, outcome: Outcome<Error>)

  /** The builder after `build()`, and the set it returned or the exception it threw. */
  datatype Built<P, K, A, C> = Built(builder: Builder<P, K, A, C>, result: Result<PrimitiveSet<P, K, A, C>, Error>)

  const AddAfterBuild := "addEntry cannot be called after build"
  const NullPrimitive := "`fullPrimitive` must not be null"
  const OnlyEnabled := "only ENABLED key is allowed"
  const TwoPrimaries := "you cannot set two primary primitives"
  const AnnotateAfterBuild := "setAnnotations cannot be called after build"
  const BuildTwice := "build cannot be called twice"
  const NotASetEntry := "getPrimitiveForEntry requires PrimitiveSet.Entry"
  const WrongPrimitive := "Wrong primitive in getPrimitiveForEntry"

  /* ---------------------------------------------------------------------- */
  /* Reference definitions of the invariants                                 */
  /* ---------------------------------------------------------------------- */

  /** The subsequence of `s` whose entries have output prefix `p`, in order. */
  function WithPrefix<P, K>(s: seq<Entry<P, K>>, p: Prefix): (r: seq<Entry<P, K>>)
    ensures |r| <= |s|
    ensures forall i :: 0 <= i < |r| ==> r[i].outputPrefix == p
  {
    if s == [] then []
    else (if s[0].outputPrefix == p then [s[0]] else []) + WithPrefix(s[1..], p)
  }

  /** The number of entries of `s` flagged primary. */
  function CountPrimary<P, K>(s: seq<Entry<P, K>>): nat
  {
    if s == [] then 0
    else (if s[0].isPrimary then 1 else 0) + CountPrimary(s[1..])
  }

  /** The bucket for `p`, empty when there is none. */
  function Bucket<P, K>(m: Buckets<P, K>, p: Prefix): seq<Entry<P, K>>
  {
    if p in m then m[p] else []
  }

  /**
   * The bucket map and the keyset-order list hold the same entries: every
   * bucket is non-empty and is exactly the keyset-order subsequence with its
   * prefix, and every listed entry's prefix has a bucket.
   */
  ghost predicate Indexed<P, K>(m: Buckets<P, K>, s: seq<Entry<P, K>>)
  {
    && (forall p :: p in m ==> m[p] == WithPrefix(s, p) && m[p] != [])
    && (forall i :: 0 <= i < |s| ==> s[i].outputPrefix in m)
  }

  ghost predicate AllEnabled<P, K>(s: seq<Entry<P, K>>)
  {
    forall i :: 0 <= i < |s| ==> s[i].status == Enabled
  }

  /** A recorded primary is one of the listed entries and is flagged primary. */
  ghost predicate PrimaryRecorded<P, K>(s: seq<Entry<P, K>>, primary: Option<Entry<P, K>>)
  {
    primary.Some? ==> primary.value in s && primary.value.isPrimary
  }

  /** Exactly the recorded primary, if any, carries the primary flag. */
  ghost predicate SinglePrimary<P, K>(s: seq<Entry<P, K>>, primary: Option<Entry<P, K>>)
  {
    CountPrimary(s) == if primary.Some? then 1 else 0
  }

  ghost predicate Consistent<P, K>(m: Buckets<P, K>, s: seq<Entry<P, K>>, primary: Option<Entry<P, K>>)
  {
    Indexed(m, s) && AllEnabled(s) && PrimaryRecorded(s, primary)
  }

  ghost predicate ValidBuilder<P, K, A, C>(b: Builder<P, K, A, C>)
  {
    b.entries.Some? ==> Consistent(b.entries.value, b.entriesInKeysetOrder, b.primary)
  }

  ghost predicate ValidSet<P, K, A, C>(ps: PrimitiveSet<P, K, A, C>)
  {
    Consistent(ps.entries, ps.entriesInKeysetOrder, ps.primary)
  }

  /* ---------------------------------------------------------------------- */
  /* Facts about the reference definitions                                   */
  /* ---------------------------------------------------------------------- */

  lemma {:induction false} WithPrefixAppend<P, K>(s: seq<Entry<P, K>>, e: Entry<P, K>, p: Prefix)
    ensures WithPrefix(s + [e], p) == WithPrefix(s, p) + (if e.outputPrefix == p then [e] else [])
  {
    if s == [] {
      assert s + [e] == [e];
    } else {
      assert (s + [e])[1..] == s[1..] + [e];
      WithPrefixAppend(s[1..], e, p);
    }
  }

  lemma {:induction false} WithPrefixAbsent<P, K>(s: seq<Entry<P, K>>, p: Prefix)
    requires forall i :: 0 <= i < |s| ==> s[i].outputPrefix != p
    ensures WithPrefix(s, p) == []
  {
    if s != [] {
      assert forall i :: 0 <= i < |s[1..]| ==> s[1..][i] == s[i + 1];
      WithPrefixAbsent(s[1..], p);
    }
  }

  /** An entry is in the subsequence for `p` exactly when it is listed and has prefix `p`. */
  lemma {:induction false} WithPrefixMembers<P, K>(s: seq<Entry<P, K>>, p: Prefix, e: Entry<P, K>)
    ensures e in WithPrefix(s, p) <==> e in s && e.outputPrefix == p
  {
    if s != [] {
      WithPrefixMembers(s[1..], p, e);
      assert s == [s[0]] + s[1..];
    }
  }

  lemma {:induction false} CountPrimaryAppend<P, K>(s: seq<Entry<P, K>>, e: Entry<P, K>)
    ensures CountPrimary(s + [e]) == CountPrimary(s) + (if e.isPrimary then 1 else 0)
  {
    if s == [] {
      assert s + [e] == [e];
    } else {
      assert (s + [e])[1..] == s[1..] + [e];
      CountPrimaryAppend(s[1..], e);
    }
  }

  /* ---------------------------------------------------------------------- */
  /* storeEntryInPrimitiveSet                                                */
  /* ---------------------------------------------------------------------- */

  /** What `storeEntryInPrimitiveSet` leaves behind: the bucket map and the keyset-order list. */
  datatype Stored<P, K> = Stored(buckets: Buckets<P, K>, inKeysetOrder: seq<Entry<P, K>>)

  /**
   * Puts a one-entry bucket under the entry's prefix and, when a bucket was
   * already there, replaces it by the old bucket followed by the entry; then
   * appends the entry to the keyset-order list.
   */
  function StoreEntry<P, K>(entry: Entry<P, K>, m: Buckets<P, K>, s: seq<Entry<P, K>>): (r: Stored<P, K>)
    ensures |r.inKeysetOrder| == |s| + 1 && r.inKeysetOrder[..|s|] == s && r.inKeysetOrder[|s|] == entry
  {
    var single := m[entry.outputPrefix := [entry]];
    var existing := if entry.outputPrefix in m then Some(m[entry.outputPrefix]) else None;
    var buckets := if existing.Some? then single[entry.outputPrefix := existing.value + [entry]] else single;
    Stored(buckets, s + [entry])
  }

  /**
   * The put-then-put-again leaves every other prefix alone and makes the
   * entry's bucket the old one, or nothing, followed by the entry.
   */
  lemma StoreEntryBuckets<P, K>(entry: Entry<P, K>, m: Buckets<P, K>, s: seq<Entry<P, K>>)
    ensures StoreEntry(entry, m, s).buckets == m[entry.outputPrefix := Bucket(m, entry.outputPrefix) + [entry]]
  {
    assert [] + [entry] == [entry];
  }

  /** Storing an entry keeps the bucket map and the keyset-order list in agreement. */
  lemma StoreEntryKeepsIndexed<P, K>(entry: Entry<P, K>, m: Buckets<P, K>, s: seq<Entry<P, K>>)
    requires Indexed(m, s)
    ensures Indexed(StoreEntry(entry, m, s).buckets, StoreEntry(entry, m, s).inKeysetOrder)
  {
    var Stored(m', s') := StoreEntry(entry, m, s);
    StoreEntryBuckets(entry, m, s);
    assert s' == s + [entry];
    forall p | p in m'
      ensures m'[p] == WithPrefix(s', p) && m'[p] != []
    {
      WithPrefixAppend(s, entry, p);
      if p == entry.outputPrefix && p !in m {
        WithPrefixAbsent(s, p);
      }
    }
  }

  /* ---------------------------------------------------------------------- */
  /* Builder                                                                 */
  /* ---------------------------------------------------------------------- */

  /**
   * `PrimitiveSet.newBuilder`: a live builder with nothing in it and EMPTY
   * annotations, which already satisfies the invariants every add keeps.
   */
  function NewBuilder<P, K, A, C>(primitiveClass: C, emptyAnnotations: A): (b: Builder<P, K, A, C>)
    ensures b.IsLive() && b.entriesInKeysetOrder == [] && b.entries == Some(map[]) && b.primary == None
    ensures b.annotations == emptyAnnotations && b.primitiveClass == primitiveClass
    ensures ValidBuilder(b) && SinglePrimary(b.entriesInKeysetOrder, b.primary)
  {
    Builder(primitiveClass, Some(map[]), [], None, emptyAnnotations)
  }

  /** The checks `addEntry` makes before it stores anything all pass. */
  predicate Admissible<P, K, A, C, M>(b: Builder<P, K, A, C>, fullPrimitive: Option<P>, protoKey: ProtoKey<M>)
  {
    b.IsLive() && fullPrimitive.Some? && protoKey.status == StatusEnabled
  }

  /** The entry `addEntry` creates once its checks pass. */
  function EntryFor<P, K, M>(
    fullPrimitive: P, key: K, protoKey: ProtoKey<M>, asPrimary: bool, prefixOf: ProtoKey<M> -> Prefix)
    : Entry<P, K>
  {
    Entry(fullPrimitive, prefixOf(protoKey), Enabled, protoKey.keyId, key, asPrimary)
  }

  /**
   * `Builder.addEntry`. `fullPrimitive == None` is a null primitive;
   * `prefixOf` is `CryptoFormat.getOutputPrefix`. As in the source, the entry
   * is stored before the primary check, so a rejected second primary is
   * still in both indexes, flagged primary.
   */
  function AddEntry<P, K, A, C, M>(
    b: Builder<P, K, A, C>, fullPrimitive: Option<P>, key: K, protoKey: ProtoKey<M>, asPrimary: bool,
    prefixOf: ProtoKey<M> -> Prefix)
    : (r: Update<P, K, A, C>)
    // Rejections before anything is stored leave the builder as it was.
    ensures !b.IsLive() ==> r == Update(b, Fail(IllegalState(AddAfterBuild)))
    ensures b.IsLive() && fullPrimitive.None? ==> r == Update(b, Fail(NullPointer(NullPrimitive)))
    ensures b.IsLive() && fullPrimitive.Some? && protoKey.status != StatusEnabled
            ==> r == Update(b, Fail(GeneralSecurity(OnlyEnabled)))
    // Otherwise it fails only as a second primary, keeping the first.
    ensures Admissible(b, fullPrimitive, protoKey) ==>
              (r.outcome.Pass? <==> !(asPrimary && b.primary.Some?))
    ensures Admissible(b, fullPrimitive, protoKey) && asPrimary && b.primary.Some? ==>
              r.outcome == Fail(IllegalState(TwoPrimaries)) && r.builder.primary == b.primary
  {
    if b.entries.None? then
      Update(b, Fail(IllegalState(AddAfterBuild)))
    else if fullPrimitive.None? then
      Update(b, Fail(NullPointer(NullPrimitive)))
    else if protoKey.status != StatusEnabled then
      Update(b, Fail(GeneralSecurity(OnlyEnabled)))
    else
      var entry := EntryFor(fullPrimitive.value, key, protoKey, asPrimary, prefixOf);
      var Stored(entries', inOrder') := StoreEntry(entry, b.entries.value, b.entriesInKeysetOrder);
      var stored := b.(entries := Some(entries'), entriesInKeysetOrder := inOrder');
      if asPrimary then
        if b.primary.Some? then Update(stored, Fail(IllegalState(TwoPrimaries)))
        else Update(stored.(primary := Some(entry)), Pass)
      else
        Update(stored, Pass)
  }

  /**
   * What an add that passes its checks stores, whether it then returns or
   * throws as a second primary: a new entry with the given primitive and
   * key, the key's prefix and id, status ENABLED and the requested primary
   * flag, appended to the keyset-order list and to its prefix's bucket, all
   * other buckets unchanged; a first primary is recorded, otherwise the
   * recorded primary stays.
   */
  lemma AddEntryStores<P, K, A, C, M>(
    b: Builder<P, K, A, C>, fullPrimitive: Option<P>, key: K, protoKey: ProtoKey<M>, asPrimary: bool,
    prefixOf: ProtoKey<M> -> Prefix)
    requires Admissible(b, fullPrimitive, protoKey)
    ensures var r := AddEntry(b, fullPrimitive, key, protoKey, asPrimary, prefixOf);
            var n := |b.entriesInKeysetOrder|;
            var s := r.builder.entriesInKeysetOrder;
            && r.builder.IsLive()
            && |s| == n + 1 && s[..n] == b.entriesInKeysetOrder
            && s[n].fullPrimitive == fullPrimitive.value
            && s[n].outputPrefix == prefixOf(protoKey)
            && s[n].status == Enabled
            && s[n].keyId == protoKey.keyId
            && s[n].key == key
            && s[n].isPrimary == asPrimary
            && r.builder.entries.value == b.entries.value[s[n].outputPrefix :=
                                            Bucket(b.entries.value, s[n].outputPrefix) + [s[n]]]
            && r.builder.annotations == b.annotations
            && r.builder.primitiveClass == b.primitiveClass
            && r.builder.primary == (if asPrimary && b.primary.None? then Some(s[n]) else b.primary)
  {
    StoreEntryBuckets(EntryFor(fullPrimitive.value, key, protoKey, asPrimary, prefixOf),
                      b.entries.value, b.entriesInKeysetOrder);
  }

  /** `Builder.addFullPrimitive`: a non-primary add; it never touches the primary. */
  function AddFullPrimitive<P, K, A, C, M>(
    b: Builder<P, K, A, C>, fullPrimitive: Option<P>, key: K, protoKey: ProtoKey<M>,
    prefixOf: ProtoKey<M> -> Prefix)
    : (r: Update<P, K, A, C>)
    ensures r.builder.primary == b.primary
    ensures r.outcome.Pass? <==> Admissible(b, fullPrimitive, protoKey)
    ensures r.outcome.Pass? ==>
              && |r.builder.entriesInKeysetOrder| == |b.entriesInKeysetOrder| + 1
              && !r.builder.entriesInKeysetOrder[|b.entriesInKeysetOrder|].isPrimary
  {
    AddEntry(b, fullPrimitive, key, protoKey, false, prefixOf)
  }

  /** `Builder.addPrimaryFullPrimitive`: succeeds only as the first primary, and records it. */
  function AddPrimaryFullPrimitive<P, K, A, C, M>(
    b: Builder<P, K, A, C>, fullPrimitive: Option<P>, key: K, protoKey: ProtoKey<M>,
    prefixOf: ProtoKey<M> -> Prefix)
    : (r: Update<P, K, A, C>)
    ensures r.outcome.Pass? <==> Admissible(b, fullPrimitive, protoKey) && b.primary.None?
    ensures r.outcome.Pass? ==>
              && r.builder.primary.Some?
              && |r.builder.entriesInKeysetOrder| == |b.entriesInKeysetOrder| + 1
              && r.builder.primary.value == r.builder.entriesInKeysetOrder[|b.entriesInKeysetOrder|]
              && r.builder.primary.value.isPrimary
    ensures b.primary.Some? ==> r.builder.primary == b.primary
  {
    AddEntry(b, fullPrimitive, key, protoKey, true, prefixOf)
  }

  /** Every add, accepted or not, keeps the indexes consistent and the primary in the list. */
  lemma AddEntryKeepsValid<P, K, A, C, M>(
    b: Builder<P, K, A, C>, fullPrimitive: Option<P>, key: K, protoKey: ProtoKey<M>, asPrimary: bool,
    prefixOf: ProtoKey<M> -> Prefix)
    requires ValidBuilder(b)
    ensures ValidBuilder(AddEntry(b, fullPrimitive, key, protoKey, asPrimary, prefixOf).builder)
  {
    if Admissible(b, fullPrimitive, protoKey) {
      var entry := EntryFor(fullPrimitive.value, key, protoKey, asPrimary, prefixOf);
      var s := b.entriesInKeysetOrder;
      var s' := s + [entry];
      var r := AddEntry(b, fullPrimitive, key, protoKey, asPrimary, prefixOf);
      assert r.builder.entriesInKeysetOrder == s';
      assert r.builder.entries.value == StoreEntry(entry, b.entries.value, s).buckets;
      StoreEntryKeepsIndexed(entry, b.entries.value, s);
      assert Indexed(r.builder.entries.value, s');
      AppendKeepsEnabled(s, entry);
      AppendKeepsListed(s, entry);
    }
  }

  lemma AppendKeepsEnabled<P, K>(s: seq<Entry<P, K>>, e: Entry<P, K>)
    requires AllEnabled(s) && e.status == Enabled
    ensures AllEnabled(s + [e])
  {
  }

  lemma AppendKeepsListed<P, K>(s: seq<Entry<P, K>>, e: Entry<P, K>)
    ensures forall x :: x in s ==> x in s + [e]
    ensures e in s + [e]
  {
  }

  /**
   * Accepted adds keep exactly one primary flag per recorded primary; a
   * rejected second primary leaves the first one recorded but two entries
   * flagged primary.
   */
  lemma AddEntryPrimaryFlags<P, K, A, C, M>(
    b: Builder<P, K, A, C>, fullPrimitive: Option<P>, key: K, protoKey: ProtoKey<M>, asPrimary: bool,
    prefixOf: ProtoKey<M> -> Prefix)
    requires SinglePrimary(b.entriesInKeysetOrder, b.primary)
    ensures var r := AddEntry(b, fullPrimitive, key, protoKey, asPrimary, prefixOf);
            r.outcome.Pass? ==> SinglePrimary(r.builder.entriesInKeysetOrder, r.builder.primary)
    ensures var r := AddEntry(b, fullPrimitive, key, protoKey, asPrimary, prefixOf);
            Admissible(b, fullPrimitive, protoKey) && asPrimary && b.primary.Some? ==>
              && r.outcome == Fail(IllegalState(TwoPrimaries))
              && r.builder.primary == b.primary
              && CountPrimary(r.builder.entriesInKeysetOrder) == 2
  {
    if Admissible(b, fullPrimitive, protoKey) {
      var entry := EntryFor(fullPrimitive.value, key, protoKey, asPrimary, prefixOf);
      CountPrimaryAppend(b.entriesInKeysetOrder, entry);
    }
  }

  /** `Builder.setAnnotations`: replaces the annotations on a live builder and nothing else. */
  function SetAnnotations<P, K, A, C>(b: Builder<P, K, A, C>, annotations: A): (r: Update<P, K, A, C>)
    ensures !b.IsLive() ==> r == Update(b, Fail(IllegalState(AnnotateAfterBuild)))
    ensures b.IsLive() ==> r.outcome.Pass? && r.builder.annotations == annotations
    ensures b.IsLive() ==>
              && r.builder.entries == b.entries
              && r.builder.entriesInKeysetOrder == b.entriesInKeysetOrder
              && r.builder.primary == b.primary
              && r.builder.primitiveClass == b.primitiveClass
  {
    if b.entries.None? then Update(b, Fail(IllegalState(AnnotateAfterBuild)))
    else Update(b.(annotations := annotations), Pass)
  }

  /**
   * `Builder.build`: hands the builder's indexes, primary and annotations to a
   * new set, without requiring a primary, and kills the builder.
   */
  function Build<P, K, A, C>(b: Builder<P, K, A, C>): (r: Built<P, K, A, C>)
    ensures !b.IsLive() ==> r == Built(b, Err(IllegalState(BuildTwice)))
    ensures b.IsLive() ==>
              && r.result.Ok?
              && r.result.value.entries == b.entries.value
              && r.result.value.entriesInKeysetOrder == b.entriesInKeysetOrder
              && r.result.value.primary == b.primary
              && r.result.value.annotations == b.annotations
              && r.result.value.primitiveClass == b.primitiveClass
    ensures b.IsLive() ==> !r.builder.IsLive() && r.builder == b.(entries := None)
    ensures ValidBuilder(b) && b.IsLive() ==> ValidSet(r.result.value)
  {
    if b.entries.None? then Built(b, Err(IllegalState(BuildTwice)))
    else
      var output := PrimitiveSet(b.entries.value, b.entriesInKeysetOrder, b.primary, b.annotations, b.primitiveClass);
      Built(b.(entries := None), Ok(output))
  }

  /** After a successful build every builder operation throws and changes nothing. */
  lemma BuiltBuilderIsDead<P, K, A, C, M>(
    b: Builder<P, K, A, C>, fullPrimitive: Option<P>, key: K, protoKey: ProtoKey<M>, asPrimary: bool,
    prefixOf: ProtoKey<M> -> Prefix, annotations: A)
    requires Build(b).result.Ok?
    ensures var dead := Build(b).builder;
            && AddEntry(dead, fullPrimitive, key, protoKey, asPrimary, prefixOf) == Update(dead, Fail(IllegalState(AddAfterBuild)))
            && SetAnnotations(dead, annotations) == Update(dead, Fail(IllegalState(AnnotateAfterBuild)))
            && Build(dead) == Built(dead, Err(IllegalState(BuildTwice)))
  {
  }

  /* ---------------------------------------------------------------------- */
  /* The frozen set                                                          */
  /* ---------------------------------------------------------------------- */

  /** `getPrimary`: the recorded primary, which is one of the set's entries. */
  function GetPrimary<P, K, A, C>(ps: PrimitiveSet<P, K, A, C>): (r: Option<Entry<P, K>>)
    ensures ValidSet(ps) && r.Some? ==>
              && r.value.isPrimary
              && exists i :: 0 <= i < |ps.entriesInKeysetOrder| && ps.entriesInKeysetOrder[i] == r.value
  {
    ps.primary
  }

  /** `getAllInKeysetOrder`: every entry, each an ENABLED one. */
  function GetAllInKeysetOrder<P, K, A, C>(ps: PrimitiveSet<P, K, A, C>): (r: seq<Entry<P, K>>)
    ensures ValidSet(ps) ==> forall i :: 0 <= i < |r| ==> r[i].status == Enabled && r[i] in Bucket(ps.entries, r[i].outputPrefix)
  {
    WithPrefixMembersAll(ps.entriesInKeysetOrder);
    ps.entriesInKeysetOrder
  }

  lemma WithPrefixMembersAll<P, K>(s: seq<Entry<P, K>>)
    ensures forall i :: 0 <= i < |s| ==> s[i] in WithPrefix(s, s[i].outputPrefix)
  {
  }

  /**
   * `getAll`: the buckets, in no particular order. Each is the keyset-order
   * subsequence of one prefix that occurs in the set.
   */
  function GetAll<P(==), K(==), A, C>(ps: PrimitiveSet<P, K, A, C>): (r: set<seq<Entry<P, K>>>)
    ensures ValidSet(ps) ==>
              r == set i | 0 <= i < |ps.entriesInKeysetOrder| ::
                     WithPrefix(ps.entriesInKeysetOrder, ps.entriesInKeysetOrder[i].outputPrefix)
  {
    BucketsAreSubsequences(ps);
    ps.entries.Values
  }

  lemma BucketsAreSubsequences<P, K, A, C>(ps: PrimitiveSet<P, K, A, C>)
    ensures ValidSet(ps) ==>
              ps.entries.Values == set i | 0 <= i < |ps.entriesInKeysetOrder| ::
                                     WithPrefix(ps.entriesInKeysetOrder, ps.entriesInKeysetOrder[i].outputPrefix)
  {
    if ValidSet(ps) {
      var s := ps.entriesInKeysetOrder;
      var image := set i | 0 <= i < |s| :: WithPrefix(s, s[i].outputPrefix);
      forall v | v in ps.entries.Values
        ensures v in image
      {
        var p :| p in ps.entries && ps.entries[p] == v;
        var e := v[0];
        WithPrefixMembers(s, p, e);
        var i :| 0 <= i < |s| && s[i] == e;
        assert WithPrefix(s, s[i].outputPrefix) == v;
      }
      forall v | v in image
        ensures v in ps.entries.Values
      {
        var i :| 0 <= i < |s| && v == WithPrefix(s, s[i].outputPrefix);
        assert ps.entries[s[i].outputPrefix] == v;
      }
    }
  }

  /** `getAnnotations`: the annotations the builder held when it was built. */
  function GetAnnotations<P, K, A, C>(ps: PrimitiveSet<P, K, A, C>): A
  {
    ps.annotations
  }

  /** `getPrimitiveClass`: the class the set was created for. */
  function GetPrimitiveClass<P, K, A, C>(ps: PrimitiveSet<P, K, A, C>): C
  {
    ps.primitiveClass
  }

  /* ---------------------------------------------------------------------- */
  /* KeysetHandleImpl and getPrimitiveForEntry                               */
  /* ---------------------------------------------------------------------- */

  /**
   * A `KeysetHandleInterface.Entry`: either a `PrimitiveSet.Entry` or some
   * other implementation of the interface. `ForeignEntry` also stands for a
   * null argument, which fails the same `instanceof` test.
   */
  datatype HandleEntry<P, K> =
    | SetEntry(entry: Entry<P, K>)
    | ForeignEntry(key: K, status: KeyStatus, keyId: int32, isPrimary: bool)

  /** `KeysetHandleImpl`: the positional view, holding the set it reads. */
  datatype KeysetHandleView<P, K, A, C> = KeysetHandleView(primitiveSet: PrimitiveSet<P, K, A, C>)

  /** `getKeysetHandle`: a view over this set. */
  function GetKeysetHandle<P, K, A, C>(ps: PrimitiveSet<P, K, A, C>): KeysetHandleView<P, K, A, C>
  {
    KeysetHandleView(ps)
  }

  /** `KeysetHandleImpl.size`. */
  function Size<P, K, A, C>(h: KeysetHandleView<P, K, A, C>): nat
  {
    |h.primitiveSet.entriesInKeysetOrder|
  }

  /** `KeysetHandleImpl.getAt`: `List.get`, which throws outside `0 .. size-1`. */
  function GetAt<P, K, A, C>(h: KeysetHandleView<P, K, A, C>, i: int): (r: Result<HandleEntry<P, K>, Error>)
    ensures r.Ok? <==> 0 <= i < Size(h)
    ensures r.Ok? ==> r.value.SetEntry? && r.value.entry in h.primitiveSet.entriesInKeysetOrder
    ensures r.Err? ==> r.error == IndexOutOfBounds(i)
  {
    if 0 <= i < |h.primitiveSet.entriesInKeysetOrder| then Ok(SetEntry(h.primitiveSet.entriesInKeysetOrder[i]))
    else Err(IndexOutOfBounds(i))
  }

  /** `KeysetHandleImpl.getPrimary`. */
  function HandlePrimary<P, K, A, C>(h: KeysetHandleView<P, K, A, C>): Option<HandleEntry<P, K>>
  {
    if h.primitiveSet.primary.Some? then Some(SetEntry(h.primitiveSet.primary.value)) else None
  }

  /**
   * `getPrimitiveForEntry`: the entry's stored primitive, when the entry is a
   * `PrimitiveSet.Entry` and its primitive is an instance of the set's class.
   */
  function GetPrimitiveForEntry<P, K, A, C>(
    ps: PrimitiveSet<P, K, A, C>, entry: HandleEntry<P, K>, isInstance: (C, P) -> bool)
    : (r: Result<P, Error>)
    ensures r.Ok? <==> entry.SetEntry? && isInstance(ps.primitiveClass, entry.entry.fullPrimitive)
    ensures r.Ok? ==> r.value == entry.entry.fullPrimitive
    ensures entry.ForeignEntry? ==> r == Err(GeneralSecurity(NotASetEntry))
    ensures entry.SetEntry? && r.Err? ==> r == Err(GeneralSecurity(WrongPrimitive))
  {
    match entry
    case ForeignEntry(_, _, _, _) => Err(GeneralSecurity(NotASetEntry))
    case SetEntry(e) =>
      if isInstance(ps.primitiveClass, e.fullPrimitive) then Ok(e.fullPrimitive)
      else Err(GeneralSecurity(WrongPrimitive))
  }

  /**
   * The positional view walks exactly the keyset-order list, fails outside
   * it, and reports the set's primary, which it can also reach by position.
   */
  lemma ViewAgreesWithSet<P, K, A, C>(ps: PrimitiveSet<P, K, A, C>)
    ensures var h := GetKeysetHandle(ps);
            && Size(h) == |GetAllInKeysetOrder(ps)|
            && (forall i :: 0 <= i < Size(h) ==> GetAt(h, i) == Ok(SetEntry(GetAllInKeysetOrder(ps)[i])))
            && (forall i :: (i < 0 || Size(h) <= i) ==> GetAt(h, i) == Err(IndexOutOfBounds(i)))
            && (HandlePrimary(h).Some? <==> GetPrimary(ps).Some?)
            && (HandlePrimary(h).Some? ==> HandlePrimary(h).value == SetEntry(GetPrimary(ps).value))
    ensures var h := GetKeysetHandle(ps);
            ValidSet(ps) && GetPrimary(ps).Some? ==>
              exists i :: 0 <= i < Size(h) && GetAt(h, i) == Ok(HandlePrimary(h).value)
  {
    var h := GetKeysetHandle(ps);
    if ValidSet(ps) && GetPrimary(ps).Some? {
      var s := ps.entriesInKeysetOrder;
      var i :| 0 <= i < |s| && s[i] == ps.primary.value;
      assert GetAt(h, i) == Ok(HandlePrimary(h).value);
    }
  }

  /**
   * Reading back through the view: every entry the view returns yields its
   * own primitive, provided the set's primitives all have the set's class.
   */
  lemma ViewEntriesDowncast<P, K, A, C>(ps: PrimitiveSet<P, K, A, C>, isInstance: (C, P) -> bool, i: int)
    requires forall j :: 0 <= j < |ps.entriesInKeysetOrder| ==>
               isInstance(ps.primitiveClass, ps.entriesInKeysetOrder[j].fullPrimitive)
    requires 0 <= i < Size(GetKeysetHandle(ps))
    ensures var h := GetKeysetHandle(ps);
            GetAt(h, i).Ok? &&
            GetPrimitiveForEntry(ps, GetAt(h, i).value, isInstance) == Ok(ps.entriesInKeysetOrder[i].fullPrimitive)
  {
  }
}
