/** Small value wrappers shared by every module of the model. */
module Common {

  /** A value that may be absent: a null pointer, a missing key, "not found". */
  datatype Option<+T> = None | Some(value: T)

  /** The first index from `i` on whose entry `keep` accepts: a search in order. */
  function FirstFrom(s: seq<string>, keep: string -> bool, i: nat): (r: Option<nat>)
    requires i <= |s|
    ensures r.Some? ==> i <= r.value < |s|
    decreases |s| - i
  {
    if i == |s| then None
    else if keep(s[i]) then Some(i)
    else FirstFrom(s, keep, i + 1)
  }

  /** The entry found is accepted and none before it is; no answer means none from `i` on is. */
  lemma {:induction false} FirstFromFirst(s: seq<string>, keep: string -> bool, i: nat)
    requires i <= |s|
    ensures var r := FirstFrom(s, keep, i);
      (r.Some? ==> keep(s[r.value]) && forall j :: i <= j < r.value ==> !keep(s[j]))
      && (r.None? ==> forall j :: i <= j < |s| ==> !keep(s[j]))
    decreases |s| - i
  {
    if i < |s| && !keep(s[i]) {
      FirstFromFirst(s, keep, i + 1);
    }
  }

  /** An outcome that is either a value or an error (the source's exceptions and error returns). */
  datatype Result<+T, +E> = Ok(value: T) | Err(error: E)

  /** A byte; image data and other binary payloads are sequences of these. */
  type Byte = bv8

  /** A C++ `int` on the targets the plugin is built for (32 bits, two's complement). */
  type Int32 = x: int | -0x8000_0000 <= x < 0x8000_0000

  /** A C++ `DWORD` / `UINT` (32 bits, unsigned). */
  type UInt32 = x: int | 0 <= x < 0x1_0000_0000

  /** The value a `(int)` cast gives for an unsigned 32-bit value: wrap-around into the signed range. */
  function ToInt32(x: UInt32): (r: Int32)
    ensures r == x || r == x - 0x1_0000_0000
    ensures x < 0x8000_0000 ==> r == x
    ensures r < 0 <==> x >= 0x8000_0000
  {
    if x < 0x8000_0000 then x else x - 0x1_0000_0000
  }
}
