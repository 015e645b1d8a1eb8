/**
 * The algorithm tables of `JwtRsaSsaPssVerifyKeyManager`: which hash and
 * which salt length each JWT RSA-PSS algorithm uses, once for the parameters
 * object and once for the protobuf enum, and the RSA-SSA-PSS public key the
 * manager derives from a JWT one.
 */
module JwtRsaSsaPssVerifyKeyManager {
  import opened Wrappers
  import opened Exceptions
  import RsaSsaPss
  import Enums
  import Params = JwtRsaSsaPssParams
  import Proto = JwtRsaSsaPssProto

  /* ---------------------------------------------------------------------- */
  /* Parameters-object tables                                                */
  /* ---------------------------------------------------------------------- */

  /**
   * `hashTypeForAlgorithm`: the hash of RFC 7518 section 3.5 for the
   * algorithm. Every `Algorithm` instance is one of the three it tests, so it
   * never reaches its `unknown algorithm` exception.
   */
  function HashTypeForAlgorithm(a: Params.Algorithm): (r: Result<RsaSsaPss.HashType, Error>)
    ensures r.Ok?
    ensures RsaSsaPss.DigestSizeBits(r.value) == Params.NamedHashBits(a)
  {
    if a == Params.PS256 then Ok(RsaSsaPss.SHA256)
    else if a == Params.PS384 then Ok(RsaSsaPss.SHA384)
    else if a == Params.PS512 then Ok(RsaSsaPss.SHA512)
    else Err(GeneralSecurity("unknown algorithm " + Params.StandardName(a)))
  }

  /** `saltLengthForPssAlgorithm(JwtRsaSsaPssParameters.Algorithm)`: the salt is as long as the hash output. */
  function SaltLengthForPssAlgorithm(a: Params.Algorithm): (r: Result<int, Error>)
    ensures r.Ok?
    ensures r.value * 8 == Params.NamedHashBits(a)
  {
    if a == Params.PS256 then Ok(32)
    else if a == Params.PS384 then Ok(48)
    else if a == Params.PS512 then Ok(64)
    else Err(GeneralSecurity("unknown algorithm " + Params.StandardName(a)))
  }

  /**
   * `toRsaSsaPssPublicKey`: PSS parameters with the algorithm's hash for both
   * the signature and MGF1, its salt length, no output prefix, and the JWT
   * key's modulus size, exponent and modulus unchanged. The checks of the
   * two Java builders are taken to pass, so the conversion always succeeds.
   */
  function ToRsaSsaPssPublicKey(publicKey: Params.PublicKey): (r: Result<RsaSsaPss.PublicKey, Error>)
    ensures r.Ok?
    ensures var p := r.value.parameters;
            && p.sigHashType == p.mgf1HashType
            && RsaSsaPss.DigestSizeBits(p.sigHashType) == Params.NamedHashBits(publicKey.parameters.algorithm)
            && p.saltLengthBytes * 8 == RsaSsaPss.DigestSizeBits(p.sigHashType)
            && p.variant == RsaSsaPss.NoPrefix
            && p.modulusSizeBits == publicKey.parameters.modulusSizeBits
            && p.publicExponent == publicKey.parameters.publicExponent
            && r.value.modulus == publicKey.modulus
  {
    var alg := publicKey.parameters.algorithm;
    match HashTypeForAlgorithm(alg)
    case Err(e) => Err(e)
    case Ok(sigHash) =>
      match HashTypeForAlgorithm(alg)
      case Err(e) => Err(e)
      case Ok(mgf1Hash) =>
        match SaltLengthForPssAlgorithm(alg)
        case Err(e) => Err(e)
        case Ok(salt) =>
          var parameters := RsaSsaPss.Parameters(
            publicKey.parameters.modulusSizeBits, publicKey.parameters.publicExponent,
            sigHash, mgf1Hash, salt, RsaSsaPss.NoPrefix);
          Ok(RsaSsaPss.PublicKey(parameters, publicKey.modulus))
  }

  /* ---------------------------------------------------------------------- */
  /* Protobuf-enum tables                                                    */
  /* ---------------------------------------------------------------------- */

  /** `hashForPssAlgorithm`: the RFC 7518 hash for PS256/PS384/PS512, an exception otherwise. */
  function HashForPssAlgorithm(a: Proto.Algorithm): (r: Result<Enums.HashType, Error>)
    ensures r.Ok? <==> a.PS256? || a.PS384? || a.PS512?
    ensures r.Ok? ==> Enums.DigestSizeBits(r.value) == Proto.NamedHashBits(a)
    ensures r.Err? ==> r.error == GeneralSecurity("unknown algorithm " + Proto.Name(a))
  {
    match a
    case PS256 => Ok(Enums.SHA256)
    case PS384 => Ok(Enums.SHA384)
    case PS512 => Ok(Enums.SHA512)
    case _ => Err(GeneralSecurity("unknown algorithm " + Proto.Name(a)))
  }

  /** `saltLengthForPssAlgorithm(JwtRsaSsaPssAlgorithm)`: the hash output length in bytes, or an exception. */
  function SaltLengthForProtoAlgorithm(a: Proto.Algorithm): (r: Result<int, Error>)
    ensures r.Ok? <==> a.PS256? || a.PS384? || a.PS512?
    ensures r.Ok? ==> r.value * 8 == Proto.NamedHashBits(a)
    ensures r.Err? ==> r.error == GeneralSecurity("unknown algorithm " + Proto.Name(a))
  {
    match a
    case PS256 => Ok(32)
    case PS384 => Ok(48)
    case PS512 => Ok(64)
    case _ => Err(GeneralSecurity("unknown algorithm " + Proto.Name(a)))
  }

  /** The hashes and salt length `getPrimitive` hands to `RsaSsaPssVerifyJce`. */
  datatype VerifierConfig = VerifierConfig(sigHash: Enums.HashType, mgf1Hash: Enums.HashType, saltLength: int)

  /**
   * The proto-key path of the primitive factory: the same hash for the
   * signature and MGF1, and the salt length, each looked up from the proto
   * algorithm, failing on the hash lookup first.
   */
  function ProtoVerifierConfig(a: Proto.Algorithm): (r: Result<VerifierConfig, Error>)
    ensures r.Ok? <==> a.PS256? || a.PS384? || a.PS512?
    ensures r.Ok? ==> r.value.sigHash == r.value.mgf1Hash
                      && r.value.saltLength * 8 == Enums.DigestSizeBits(r.value.sigHash)
    ensures r.Err? ==> r == Err(GeneralSecurity("unknown algorithm " + Proto.Name(a)))
  {
    match HashForPssAlgorithm(a)
    case Err(e) => Err(e)
    case Ok(hash) =>
      match SaltLengthForProtoAlgorithm(a)
      case Err(e) => Err(e)
      case Ok(salt) => Ok(VerifierConfig(hash, hash, salt))
  }

  /* ---------------------------------------------------------------------- */
  /* The two copies of the table agree                                       */
  /* ---------------------------------------------------------------------- */

  /** The parameters-object algorithm a proto enum value names, if any. */
  function FromProto(a: Proto.Algorithm): Option<Params.Algorithm>
  {
    match a
    case PS256 => Some(Params.PS256)
    case PS384 => Some(Params.PS384)
    case PS512 => Some(Params.PS512)
    case _ => None
  }

  /** The same hash as a `RsaSsaPssParameters.HashType`, if it has one. */
  function ToPssHash(h: Enums.HashType): Option<RsaSsaPss.HashType>
  {
    match h
    case SHA256 => Some(RsaSsaPss.SHA256)
    case SHA384 => Some(RsaSsaPss.SHA384)
    case SHA512 => Some(RsaSsaPss.SHA512)
    case _ => None
  }

  /**
   * The proto tables accept exactly the proto values that name a
   * parameters-object algorithm, and give the same hash and salt as the
   * parameters tables do for it.
   */
  lemma TablesAgree(a: Proto.Algorithm)
    ensures HashForPssAlgorithm(a).Ok? <==> FromProto(a).Some?
    ensures SaltLengthForProtoAlgorithm(a).Ok? <==> FromProto(a).Some?
    ensures FromProto(a).Some? ==>
              && ToPssHash(HashForPssAlgorithm(a).value) == Some(HashTypeForAlgorithm(FromProto(a).value).value)
              && SaltLengthForProtoAlgorithm(a).value == SaltLengthForPssAlgorithm(FromProto(a).value).value
  {
  }

  /** Every parameters-object algorithm is named by some proto value. */
  lemma FromProtoCovers(alg: Params.Algorithm)
    ensures exists a :: FromProto(a) == Some(alg)
  {
    match alg
    case PS256 => assert FromProto(Proto.PS256) == Some(alg);
    case PS384 => assert FromProto(Proto.PS384) == Some(alg);
    case PS512 => assert FromProto(Proto.PS512) == Some(alg);
  }

  /**
   * A verifier built from the proto key and one built from the parameters
   * object use the same hashes and salt length.
   */
  lemma VerifierPathsAgree(a: Proto.Algorithm, publicKey: Params.PublicKey)
    requires FromProto(a) == Some(publicKey.parameters.algorithm)
    ensures ProtoVerifierConfig(a).Ok? && ToRsaSsaPssPublicKey(publicKey).Ok?
    ensures var c := ProtoVerifierConfig(a).value;
            var p := ToRsaSsaPssPublicKey(publicKey).value.parameters;
            && ToPssHash(c.sigHash) == Some(p.sigHashType)
            && ToPssHash(c.mgf1Hash) == Some(p.mgf1HashType)
            && c.saltLength == p.saltLengthBytes
  {
    TablesAgree(a);
  }
}
