/** SHA-256 as the source uses it: some function from texts to 64 lower-case hexadecimal digits. */
module Digests {
  import opened Texts

  /** RUNTIME_AUDIT_SHA256_HEX, the pattern of src/audit/runtime-audit-schema.ts:16. */
  predicate IsSha256Hex(t: Text) {
    |t| == 64 && forall i :: 0 <= i < 64 ==> IsDigit(t[i]) || 97 <= t[i] <= 102
  }

  type Digest = t: Text | IsSha256Hex(t) witness seq(64, _ => 48)

  type Hash = Text -> Digest

  /** Two different texts with one digest: what a digest is trusted to rule out in practice. */
  predicate Collide(sha: Hash, a: Text, b: Text) {
    a != b && sha(a) == sha(b)
  }
}
