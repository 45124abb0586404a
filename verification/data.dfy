/**
 * The note payload `Data` of src/utils/Data.ts (and its local copy in src/app/page.jsx,
 * which has no `clone`).
 * The class's constructor stores its four arguments verbatim, which is exactly what the
 * datatype constructor below does; `clone` copies the four fields, which on an immutable
 * value is the value itself.
 */
module NoteData {

  /**
   * `dimension` is 0 for a root note and 2..5 for an interval class; `isUp` is the
   * direction from the parent; `frequency` is in Hz and kept as an exact real.
   */
  datatype Data = Data(dimension: int, isUp: bool, isMuted: bool, frequency: real)

  /** `setMuted(m)`: the mute flag becomes `m` and no other field changes. */
  function SetMuted(d: Data, muted: bool): (r: Data)
    ensures r.isMuted == muted
    ensures r.dimension == d.dimension && r.isUp == d.isUp && r.frequency == d.frequency
  {
    d.(isMuted := muted)
  }

  /**
   * `setMuted(!isMuted)`, as done by the mute key and the mute button: the flag flips,
   * and putting the old flag back gives the original payload.
   */
  function ToggleMuted(d: Data): (r: Data)
    ensures r.isMuted == !d.isMuted
    ensures SetMuted(r, d.isMuted) == d
  {
    SetMuted(d, !d.isMuted)
  }

  /** Flipping the mute flag twice gives back the original payload. */
  lemma ToggleMutedTwice(d: Data)
    ensures ToggleMuted(ToggleMuted(d)) == d
  {
  }

}
