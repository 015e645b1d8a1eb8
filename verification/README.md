# Tink `PrimitiveSet` and the JWT RSA-PSS algorithm tables, in Dafny

This project models two pieces of Tink for Java.

**The primitive set.** `PrimitiveSet<P>` holds one primitive per enabled key of a keyset. It indexes them twice:

- by output prefix, as a map from prefix to the entries with that prefix, in insertion order;
- in keyset order, as one flat list.

It records at most one primary entry. A single-use `Builder` assembles it. Each add validates the entry, then stores it in both indexes. `build()` freezes the state and kills the builder. On top of the frozen set sit a read-only positional view (`KeysetHandleImpl`) and a checked downcast (`getPrimitiveForEntry`).

**The JWT RSA-PSS tables.** `JwtRsaSsaPssVerifyKeyManager` maps PS256, PS384 and PS512 to a hash function and a salt length, as section 3.5 of RFC 7518 prescribes. It holds this table twice: once for the parameters object and once for the protobuf enum. It also derives an RSA-SSA-PSS public key from a JWT one.

Files:

- `wrappers.dfy`: `Option`, `Result` and `Outcome`, standing in for Java nulls and exceptions. It also has the `Error` datatype, one constructor per exception class thrown. `IllegalState`, `NullPointer` and `GeneralSecurity` carry the source's message. `IndexOutOfBounds` carries the offending index instead of `List.get`'s message.
- `keysets.dfy`: the proto key's status and id, Tink's `KeyStatus`, bytes, and 32-bit ints.
- `primitive_set.dfy`: `Entry`, `Builder`, `PrimitiveSet`, the positional view and the downcast. Also the invariants and the lemmas about single steps.
- `primitive_set_traces.dfy`: whole sequences of adds from a fresh builder followed by `build()`, plus three worked examples.
- `rsa_ssa_pss.dfy`: the hash enums, the RSA-SSA-PSS parameter and key values, the JWT parameters and key, and the protobuf algorithm enum.
- `jwt_rsa_ssa_pss_verify_key_manager.dfy`: the key manager's tables, the key conversion, and the agreement lemmas.

How the model is built:

- **The builder.** It is an immutable value. A builder step returns `Update(builder, outcome)`, the builder as the step leaves it plus whether the call returned or threw. An exception thrown after a mutation therefore keeps the mutation.
- **A dead builder.** `entries == None` plays the role of the Java builder whose `entries` field `build()` set to null.
- **Opaque types and functions.** `P`, `K` (`Key`), `A` (`MonitoringAnnotations`), `C` (`Class<P>`) and `M` (proto-key metadata) are type parameters. `CryptoFormat.getOutputPrefix` is a function parameter `prefixOf`. The `Class.isInstance` check is a function parameter `isInstance`.
- **Null primitive.** A null `fullPrimitive` is `None`.

The invariants are stated as reference predicates in `primitive_set.dfy`:

- `Indexed`: every bucket is non-empty, and every bucket equals `WithPrefix`, the keyset-order subsequence with that prefix. So relative insertion order is kept. Every listed entry's prefix also has a bucket.
- `AllEnabled`: every entry has status ENABLED.
- `PrimaryRecorded`: the recorded primary is in the list and is flagged primary.
- `SinglePrimary`: the number of primary-flagged entries is 1 when a primary is recorded, and 0 otherwise.

**A second primary.** `addEntry` stores the entry before it checks for a second primary (PrimitiveSet.java:272-276). Suppose a caller catches the "two primary" exception and goes on building. The builder then holds two entries flagged primary. The recorded primary is still the first one.

The model keeps this behaviour as the code has it:

- `AddEntryStores` shows that the entry is stored in both indexes even in this failing case.
- `AddEntryPrimaryFlags` proves that the flag count becomes 2 while the recorded primary is unchanged.
- `TwoPrimaryExample` exhibits it on two keys.

`Consistent` holds after every add, failed or not. `SinglePrimary` is kept by every add that returns normally from a builder where it held. After a caught second-primary exception it no longer holds, and later adds that return normally do not restore it.

## Model

| member | source | states |
|---|---|---|
| `PrimitiveSets.StoreEntry` | src/main/java/com/google/crypto/tink/internal/PrimitiveSet.java:130-143 | The entry is appended to the end of the keyset-order list, and the list before it is unchanged. |
| `PrimitiveSets.StoreEntryBuckets` | src/main/java/com/google/crypto/tink/internal/PrimitiveSet.java:130-143 | After the put and the put-again, the bucket for the entry's prefix is the old bucket (or nothing) followed by the entry. Every other bucket is unchanged. |
| `PrimitiveSets.StoreEntryKeepsIndexed` | src/main/java/com/google/crypto/tink/internal/PrimitiveSet.java:130-143 | Storing an entry preserves bucket/list consistency. Each bucket is non-empty and equals the keyset-order subsequence with its prefix. Every listed prefix has a bucket. |
| `PrimitiveSets.WithPrefixMembers` | src/main/java/com/google/crypto/tink/internal/PrimitiveSet.java:206-214 | An entry is in the subsequence for prefix `p` exactly when it is listed and has prefix `p`. This is the sense in which a bucket holds "the primitives sharing the prefix". |
| `PrimitiveSets.NewBuilder` | src/main/java/com/google/crypto/tink/internal/PrimitiveSet.java:326-334 | A new builder is live and empty, has no primary, and has annotations EMPTY. It already satisfies `ValidBuilder` and `SinglePrimary`, the invariants the add lemmas require. |
| `PrimitiveSets.AddEntry` | src/main/java/com/google/crypto/tink/internal/PrimitiveSet.java:250-280 | On a dead builder it throws IllegalStateException. With a null primitive it throws NullPointerException. With a non-ENABLED proto key it throws GeneralSecurityException. Each of these leaves the builder unchanged. Otherwise it fails exactly when a second primary is requested: then it throws IllegalStateException and the recorded primary stays the first. |
| `PrimitiveSets.AddEntryStores` | src/main/java/com/google/crypto/tink/internal/PrimitiveSet.java:263-278 | Once the checks pass, the new entry is stored, including in the failing second-primary case. It has the given primitive and key, `getOutputPrefix(protoKey)`, status ENABLED, the proto key's id and the requested primary flag. It is appended to the list and to its prefix's bucket, with every other bucket, the annotations and the class unchanged. A first primary is recorded; otherwise the primary stays. |
| `PrimitiveSets.AddEntryKeepsValid` | src/main/java/com/google/crypto/tink/internal/PrimitiveSet.java:250-280 | Every add, whether accepted or rejected, keeps the indexes consistent, all entries ENABLED, and the recorded primary listed and flagged. |
| `PrimitiveSets.AddEntryPrimaryFlags` | src/main/java/com/google/crypto/tink/internal/PrimitiveSet.java:272-277 | An add that returns keeps exactly one primary flag per recorded primary. A rejected second primary leaves the first one recorded, with two entries flagged primary. |
| `PrimitiveSets.AddFullPrimitive` | src/main/java/com/google/crypto/tink/internal/PrimitiveSet.java:288-292 | A non-primary add never changes the primary. It succeeds exactly when the checks pass, and the entry it adds is not flagged primary. |
| `PrimitiveSets.AddPrimaryFullPrimitive` | src/main/java/com/google/crypto/tink/internal/PrimitiveSet.java:300-304 | A primary add succeeds exactly when the checks pass and no primary is recorded yet. The appended entry then becomes the primary, flagged as such. An existing primary is never replaced. |
| `PrimitiveSets.SetAnnotations` | src/main/java/com/google/crypto/tink/internal/PrimitiveSet.java:306-313 | On a dead builder it throws IllegalStateException and changes nothing. On a live builder it replaces the annotations and leaves everything else alone. |
| `PrimitiveSets.Build` | src/main/java/com/google/crypto/tink/internal/PrimitiveSet.java:315-324 | Also covers the getters `GetAnnotations` (`getAnnotations`) and `GetPrimitiveClass` (`getPrimitiveClass`), which return the fields `Build` hands over. A second build throws IllegalStateException. Otherwise build succeeds with or without a primary. The set carries exactly the builder's buckets, list, primary, annotations and class. The builder is left dead, and a consistent builder yields a consistent set. |
| `PrimitiveSets.BuiltBuilderIsDead` | src/main/java/com/google/crypto/tink/internal/PrimitiveSet.java:250-324 | After a successful build, addEntry, setAnnotations and build all throw IllegalStateException and leave the builder unchanged. |
| `PrimitiveSets.GetPrimary` | src/main/java/com/google/crypto/tink/internal/PrimitiveSet.java:145-149 | In a consistent set, a returned primary is flagged primary and occurs in the keyset-order list. |
| `PrimitiveSets.GetAllInKeysetOrder` | src/main/java/com/google/crypto/tink/internal/PrimitiveSet.java:201-204 | In a consistent set, every listed entry is ENABLED and sits in the bucket of its own prefix. |
| `PrimitiveSets.GetAll` | src/main/java/com/google/crypto/tink/internal/PrimitiveSet.java:196-199 | In a consistent set, the collection of buckets is exactly the set of per-prefix keyset-order subsequences, one for each prefix that occurs. |
| `PrimitiveSets.GetPrimitiveForEntry` | src/main/java/com/google/crypto/tink/internal/PrimitiveSet.java:184-194 | It returns the entry's stored primitive unchanged exactly when the argument is a `PrimitiveSet.Entry` whose primitive is an instance of the set's class. Otherwise it throws GeneralSecurityException with the matching message. |
| `PrimitiveSets.ViewAgreesWithSet` | src/main/java/com/google/crypto/tink/internal/PrimitiveSet.java:163-182 | Covers `GetKeysetHandle` (`getKeysetHandle`) and `Size`, `GetAt` and `HandlePrimary`, the view's `size`, `getAt` and `getPrimary`. `size()` is the length of the keyset-order list. `getAt(i)` is its i-th entry, with an index-out-of-bounds error outside `0 .. size-1`. `getPrimary()` is the set's primary, which in a consistent set is reachable at some position. |
| `PrimitiveSets.ViewEntriesDowncast` | src/main/java/com/google/crypto/tink/internal/PrimitiveSet.java:163-194 | Suppose every primitive in the set is an instance of the set's class. Then the downcast of the view's i-th entry returns the i-th entry's own primitive. |
| `PrimitiveSetTraces.AddAllKeepsValid` | src/main/java/com/google/crypto/tink/internal/PrimitiveSet.java:250-280 | A sequence of adds that returns normally leaves a live, consistent builder with exactly one primary flag per recorded primary. |
| `PrimitiveSetTraces.AddAllSucceedsIff` | src/main/java/com/google/crypto/tink/internal/PrimitiveSet.java:250-280 | A sequence of adds returns normally exactly when three conditions hold. Every request has a primitive. Every request has an ENABLED key. At most one primary is asked for, counting one already recorded. |
| `PrimitiveSetTraces.AddAllAppends` | src/main/java/com/google/crypto/tink/internal/PrimitiveSet.java:130-143 | A successful sequence of adds appends one entry per request to the keyset-order list, in request order. The annotations and class are unchanged. |
| `PrimitiveSetTraces.AddAllRecordsPrimary` | src/main/java/com/google/crypto/tink/internal/PrimitiveSet.java:272-278 | After a successful sequence of adds, the primary is the one recorded before, else the entry of the request that asked to be primary, else unchanged. |
| `PrimitiveSetTraces.BuildAfterAdds` | src/main/java/com/google/crypto/tink/internal/PrimitiveSet.java:315-329 | Building after a successful sequence of adds from a fresh builder yields a consistent set. It has at most one primary flag, annotations EMPTY, and one entry per request in request order. A request that asked to be primary is the set's primary. |
| `PrimitiveSetTraces.ThreeKeyExample` | src/main/java/com/google/crypto/tink/internal/PrimitiveSet.java:130-143 | Keys 1, 2, 3 are added with prefixes A, A, B, and key 2 primary. The primary is key 2. Bucket A holds keys 1 and 2 in order, bucket B holds key 3, and the keyset order is 1, 2, 3. |
| `PrimitiveSetTraces.DisabledKeyExample` | src/main/java/com/google/crypto/tink/internal/PrimitiveSet.java:259-262 | A DISABLED key is refused with GeneralSecurityException, and the set built afterwards is empty. |
| `PrimitiveSetTraces.TwoPrimaryExample` | src/main/java/com/google/crypto/tink/internal/PrimitiveSet.java:272-277 | The second primary add throws. The built set's primary is the first key, yet the second entry is in the list, flagged primary. |
| `JwtRsaSsaPssVerifyKeyManager.HashTypeForAlgorithm` | src/main/java/com/google/crypto/tink/jwt/JwtRsaSsaPssVerifyKeyManager.java:50-62 | It never fails. It gives the hash whose output size is the nnn of PSnnn: SHA256, SHA384 or SHA512. |
| `JwtRsaSsaPssVerifyKeyManager.SaltLengthForPssAlgorithm` | src/main/java/com/google/crypto/tink/jwt/JwtRsaSsaPssVerifyKeyManager.java:64-76 | It never fails. The salt length in bytes times 8 is the nnn of PSnnn, giving 32, 48 or 64. |
| `JwtRsaSsaPssVerifyKeyManager.ToRsaSsaPssPublicKey` | src/main/java/com/google/crypto/tink/jwt/JwtRsaSsaPssVerifyKeyManager.java:78-94 | The signature hash equals the MGF1 hash, and that hash is the algorithm's. The salt equals the hash output length. The variant is NO_PREFIX. Modulus size, exponent and modulus are copied unchanged. |
| `JwtRsaSsaPssVerifyKeyManager.HashForPssAlgorithm` | src/main/java/com/google/crypto/tink/jwt/JwtRsaSsaPssVerifyKeyManager.java:128-143 | It succeeds exactly for PS256, PS384 and PS512, with the hash of that output size. Any other value throws "unknown algorithm" plus the enum name. |
| `JwtRsaSsaPssVerifyKeyManager.SaltLengthForProtoAlgorithm` | src/main/java/com/google/crypto/tink/jwt/JwtRsaSsaPssVerifyKeyManager.java:145-157 | It succeeds exactly for PS256, PS384 and PS512, with the salt length times 8 equal to nnn. Any other value throws "unknown algorithm" plus the enum name. |
| `JwtRsaSsaPssVerifyKeyManager.ProtoVerifierConfig` | src/main/java/com/google/crypto/tink/jwt/JwtRsaSsaPssVerifyKeyManager.java:173-179 | The proto-key verifier uses one hash for both the signature and MGF1, and a salt as long as that hash's output. It fails exactly on the unsupported enum values. |
| `JwtRsaSsaPssVerifyKeyManager.TablesAgree` | src/main/java/com/google/crypto/tink/jwt/JwtRsaSsaPssVerifyKeyManager.java:128-157 | The proto tables accept exactly the proto values that name a parameters algorithm. For those they give the same hash and salt as the parameters tables. |
| `JwtRsaSsaPssVerifyKeyManager.FromProtoCovers` | src/main/java/com/google/crypto/tink/jwt/JwtRsaSsaPssVerifyKeyManager.java:50-76 | Every algorithm the parameters tables accept is named by some proto enum value. So the proto tables leave none of them out, which is the other half of `TablesAgree`. |
| `JwtRsaSsaPssVerifyKeyManager.VerifierPathsAgree` | src/main/java/com/google/crypto/tink/jwt/JwtRsaSsaPssVerifyKeyManager.java:173-179 | For corresponding algorithms, the proto-key verifier and the derived public key agree. They use the same signature hash, MGF1 hash and salt length. |

## Left out

- `CryptoFormat.getOutputPrefix` is not part of this model. It is the parameter `prefixOf`, an arbitrary total function of the proto key. A prefix computation that throws is not modelled. In Tink it throws for an unknown output-prefix type, before `addEntry` stores anything, and `AddEntry` has no such error path.
- The order in which `getAll()` lists buckets is left out, because it is `HashMap.values()` order. `GetAll` returns a set of buckets, and only the order within a bucket is modelled.
- Concurrency, safe publication and the `Collections.unmodifiableList` wrappers are left out. The frozen `PrimitiveSet` is an immutable value with no operation that changes it. The Java set is not fully immutable: `getAll()` returns the live `entries.values()` view of the `HashMap`, and its `remove` and `clear` can drop buckets and break bucket/list consistency. The model's set cannot be changed that way.
- The contents of `MonitoringAnnotations`, `Entry.getParameters` and `Key.getParameters` are left out, because these are opaque to the container.
- Java object identity is left out. Entries are values, so two entries with equal fields are equal. The primary-flag invariant is therefore stated as a count of flags, not as reference equality.
- A null argument to `getPrimitiveForEntry` is not a separate case. It fails the `instanceof` test like any other non-`PrimitiveSet.Entry`, and `ForeignEntry` stands for it, with the same `GeneralSecurityException` message.
- The 32-bit bound on list sizes and on the `getAt` index is left out. `size()` is an unbounded `nat`, and `getAt` takes any integer.
- A null `JwtRsaSsaPssParameters.Algorithm` is left out. In Java it would throw NullPointerException from `equals`, not the `unknown algorithm` exception. `HashTypeForAlgorithm` and `SaltLengthForPssAlgorithm` model only the three instances the class has, so their error branch is unreachable.
- In `JwtRsaSsaPssVerifyKeyManager` several parts are left out: the `verifyAndDecode` closures (RSA-PSS verification, JSON parsing, JWT header and claim validation), `createPublicKey` (the JCE `KeyFactory`), `validateKey` and `parseKey`. Each is a foreign call or plain I/O. The constant getters `getKeyType`, `fipsStatus`, `getVersion` and `keyMaterialType` are also left out. They return constant metadata, have no logic, and lie outside the algorithm tables.
- `ToRsaSsaPssPublicKey` does not model the validation that `RsaSsaPssParameters.Builder.build` and `RsaSsaPssPublicKey.Builder.build` perform, because that code is not part of this model. Both builders' checks are treated as always passing. The model therefore claims success (`r.Ok?`) on every input, including a modulus size or exponent the Java builder would reject with a `GeneralSecurityException`. The same holds for the success part of `VerifierPathsAgree`.
