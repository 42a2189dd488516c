// Basic types shared by every layer: fixed-width integers, identifiers and the
// three-way result of a parse over a buffer that may still be growing.
module Types {

  type byte = b: int | 0 <= b < 0x100
  type u16 = n: int | 0 <= n < 0x1_0000
  type u32 = n: int | 0 <= n < 0x1_0000_0000

  type Bytes = seq<byte>

  /** Identifies a channel; a protocol instance with N channels knows 0..N-1. */
  type ChannelId = byte

  /** Identifies a request within one channel and one direction. */
  type Id = u16

  datatype Option<+T> = None | Some(value: T)

  datatype Result<+T, +E> = Ok(value: T) | Err(error: E)

  /** The outcome of a parse: `Incomplete(n)` asks for at least `n` more bytes. */
  datatype Outcome<+T, +E> = Incomplete(n: nat) | Fatal(error: E) | Success(value: T)

  /** Taking from the front twice is taking once. */
  lemma SliceTwice<T>(s: seq<T>, i: nat, j: nat)
    requires i + j <= |s|
    ensures s[i..][..j] == s[i..i + j] && s[i..][j..] == s[i + j..]
  {
  }

  lemma SliceFront<T>(s: seq<T>, more: seq<T>, i: nat, j: nat)
    requires i <= j <= |s|
    ensures (s + more)[i..j] == s[i..j]
  {
  }

  lemma SliceBack<T>(s: seq<T>, more: seq<T>, i: nat)
    requires i <= |s|
    ensures (s + more)[i..] == s[i..] + more
  {
  }

  lemma Associate<T>(a: seq<T>, b: seq<T>, c: seq<T>)
    ensures (a + b) + c == a + (b + c)
  {
  }

  function Min(a: int, b: int): int {
    if a < b then a else b
  }
}
