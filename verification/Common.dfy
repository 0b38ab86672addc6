/** Vocabulary shared by every module: optional and failing results, and byte strings. */
module Common {

  datatype Option<+T> = None | Some(value: T)

  /** The C++ exceptions of the original become `Err`, with a short reason in place of the rendered message. */
  datatype Result<+T> = Ok(value: T) | Err(reason: string)

  type Byte = b: int | 0 <= b < 256

  type Bytes = seq<Byte>

  /** `std::string::substr` on the offsets the callers use; an offset past the end gives the empty string. */
  function Substr(s: Bytes, start: nat, len: nat): Bytes {
    if start + len <= |s| then s[start..start + len] else if start <= |s| then s[start..] else []
  }

  /** `needle` occurs in `s` at `at`. */
  predicate OccursAt(s: Bytes, needle: Bytes, at: nat) {
    at + |needle| <= |s| && s[at..at + |needle|] == needle
  }

  predicate Contains(s: Bytes, needle: Bytes) {
    exists at: nat | at <= |s| :: OccursAt(s, needle, at)
  }
}
