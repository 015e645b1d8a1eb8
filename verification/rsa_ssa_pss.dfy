/**
 * The RSA-SSA-PSS parameter and public-key values of Tink's signature
 * package, as far as the JWT key manager fills them in. The validation that
 * `RsaSsaPssParameters.Builder.build` performs is not part of this model.
 */
module RsaSsaPss {

  /** `RsaSsaPssParameters.HashType`. */
  datatype HashType = SHA256 | SHA384 | SHA512

  /** `RsaSsaPssParameters.Variant`: how signatures are prefixed. */
  datatype Variant = Tink | Crunchy | LegacyVariant | NoPrefix

  /** The output size of each hash function, in bits (FIPS 180-4). */
  function DigestSizeBits(h: HashType): nat
  {
    match h
    case SHA256 => 256
    case SHA384 => 384
    case SHA512 => 512
  }

  datatype Parameters = Parameters(
    modulusSizeBits: int,
    publicExponent: int,
    sigHashType: HashType,
    mgf1HashType: HashType,
    saltLengthBytes: int,
    variant: Variant)

  datatype PublicKey = PublicKey(parameters: Parameters, modulus: int)
}

/** The hash names of Tink's low-level `subtle.Enums.HashType`. */
module Enums {

  datatype HashType = SHA1 | SHA384 | SHA256 | SHA512 | SHA224

  function DigestSizeBits(h: HashType): nat
  {
    match h
    case SHA1 => 160
    case SHA224 => 224
    case SHA256 => 256
    case SHA384 => 384
    case SHA512 => 512
  }
}

/**
 * `JwtRsaSsaPssParameters` and `JwtRsaSsaPssPublicKey`: the JWT algorithm and
 * the fields of a JWT RSA-PSS public key that the key manager reads.
 */
module JwtRsaSsaPssParams {

  /**
   * `JwtRsaSsaPssParameters.Algorithm`. The Java class has a private
   * constructor and exactly these three instances.
   */
  datatype Algorithm = PS256 | PS384 | PS512

  /** The algorithm's JOSE name, its `toString`. */
  function StandardName(a: Algorithm): string
  {
    match a
    case PS256 => "PS256"
    case PS384 => "PS384"
    case PS512 => "PS512"
  }

  /**
   * Section 3.5 of RFC 7518: "PSnnn" is RSASSA-PSS with SHA-nnn as both the
   * message hash and the MGF1 hash; this is nnn.
   */
  function NamedHashBits(a: Algorithm): nat
  {
    match a
    case PS256 => 256
    case PS384 => 384
    case PS512 => 512
  }

  datatype Parameters = Parameters(modulusSizeBits: int, publicExponent: int, algorithm: Algorithm)

  datatype PublicKey = PublicKey(parameters: Parameters, modulus: int)
}

/** The protobuf enum `JwtRsaSsaPssAlgorithm`, with protobuf's value for unknown numbers. */
module JwtRsaSsaPssProto {

  datatype Algorithm = PsUnknown | PS256 | PS384 | PS512 | Unrecognized(number: int)

  /** The enum constant's `name()`. */
  function Name(a: Algorithm): string
  {
    match a
    case PsUnknown => "PS_UNKNOWN"
    case PS256 => "PS256"
    case PS384 => "PS384"
    case PS512 => "PS512"
    case Unrecognized(_) => "UNRECOGNIZED"
  }

  /** Section 3.5 of RFC 7518 for the proto names: nnn for "PSnnn", none for the others. */
  function NamedHashBits(a: Algorithm): nat
  {
    match a
    case PS256 => 256
    case PS384 => 384
    case PS512 => 512
    case _ => 0
  }
}
