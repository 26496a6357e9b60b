/** The collaborators the authentication services call but whose code is
    not part of this model: the password hasher, the token codec and the
    UUID text codec. Each is a record of functions supplied by the caller;
    nothing is assumed about them except where a lemma says so. */
module Collaborators {
  import opened Wrappers
  import opened Store

  /** `LoginResponse`: the access and refresh tokens of one issuance. */
  datatype TokenPair = TokenPair(accessToken: string, refreshToken: string)

  /** A claim value as the token parser returns it (`interface{}`): a
      string, or anything else (numbers such as `iat` and `exp`). */
  datatype ClaimValue = ClaimText(text: string) | ClaimOther

  type Claims = map<string, ClaimValue>

  /** `PasswordHasher`: `hash` may fail (`None`); `compare` never fails. */
  datatype Hasher = Hasher(hash: string -> Option<string>, compare: (string, string) -> bool)

  /** `TokenGenerator`: `generate` issues a pair for a subject and role or
      fails; `parse` returns the claims of a token it accepts. */
  datatype TokenCodec = TokenCodec(
    generate: (Uuid, string) -> Option<TokenPair>,
    parse: string -> Option<Claims>)

  /** `uuid.UUID.String` and `uuid.Parse`. */
  datatype UuidCodec = UuidCodec(format: Uuid -> string, parse: string -> Option<Uuid>)

  datatype Env = Env(hasher: Hasher, tokens: TokenCodec, uuids: UuidCodec)

  /** A hashed password compares equal to the password it was made from. */
  ghost predicate HasherSound(h: Hasher) {
    forall p :: h.hash(p).Some? ==> h.compare(p, h.hash(p).value)
  }

  /** The claims a token issued for `id` and `role` carries. */
  predicate Carries(c: Claims, sub: string, role: string) {
    && "sub" in c && c["sub"] == ClaimText(sub)
    && "role" in c && c["role"] == ClaimText(role)
  }

  /** Every token the codec issues is non-empty and parses back to its
      subject (as text) and role, and the UUID text round-trips. */
  ghost predicate TokensRoundTrip(env: Env) {
    && (forall id: Uuid :: env.uuids.parse(env.uuids.format(id)) == Some(id))
    && (forall id: Uuid, role: string :: env.tokens.generate(id, role).Some? ==>
          var p := env.tokens.generate(id, role).value;
          && p.accessToken != "" && p.refreshToken != ""
          && env.tokens.parse(p.accessToken).Some?
          && Carries(env.tokens.parse(p.accessToken).value, env.uuids.format(id), role)
          && env.tokens.parse(p.refreshToken).Some?
          && Carries(env.tokens.parse(p.refreshToken).value, env.uuids.format(id), role))
  }
}
