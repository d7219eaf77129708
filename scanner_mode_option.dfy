/**
 * The scanner modes a caller may ask for, each with the integer it travels
 * as over the channel, and the lenient lookup from that integer.
 */
module ScannerModes {
  import opened Wrappers

  /** `ScannerModeOption`; the ML Kit constant each mode forwards to is opaque here. */
  datatype ScannerModeOption = Full | BaseWithFilter | Base

  /** The integer a mode is sent as: its 1-based position in declaration order. */
  function ChannelValue(m: ScannerModeOption): (v: int)
    ensures 1 <= v <= |AllModes| && AllModes[v - 1] == m
  {
    match m
    case Full => 1
    case BaseWithFilter => 2
    case Base => 3
  }

  /** `values()`: the modes in declaration order. */
  const AllModes: seq<ScannerModeOption> := [Full, BaseWithFilter, Base]

  /** `modes.firstOrNull { it.channelValue == value }`. */
  function FirstWithChannelValue(modes: seq<ScannerModeOption>, value: Option<int>): (r: Option<ScannerModeOption>)
    ensures r.Some? ==> value == Some(ChannelValue(r.value))
    ensures r.Some? ==> exists k :: 0 <= k < |modes| && modes[k] == r.value &&
                          forall j :: 0 <= j < k ==> value != Some(ChannelValue(modes[j]))
    ensures r.None? <==> forall k :: 0 <= k < |modes| ==> value != Some(ChannelValue(modes[k]))
  {
    if modes == [] then None
    else if value == Some(ChannelValue(modes[0])) then Some(modes[0])
    else
      var r := FirstWithChannelValue(modes[1..], value);
      assert forall k :: 1 <= k < |modes| ==> modes[k] == modes[1..][k - 1];
      r
  }

  /** `fromChannelValue`: the mode with that channel value, or `Full` for anything else, null included. */
  function FromChannelValue(value: Option<int>): (m: ScannerModeOption)
    ensures value == Some(1) ==> m == Full
    ensures value == Some(2) ==> m == BaseWithFilter
    ensures value == Some(3) ==> m == Base
    ensures !(value.Some? && 1 <= value.value <= 3) ==> m == Full
  {
    FirstWithChannelValue(AllModes, value).GetOr(Full)
  }

  /** Sending a mode and reading it back yields the same mode. */
  lemma FromChannelValueRoundTrip(m: ScannerModeOption)
    ensures FromChannelValue(Some(ChannelValue(m))) == m
  {
  }

  /** Hence the channel values are pairwise distinct. */
  lemma ChannelValueInjective(m1: ScannerModeOption, m2: ScannerModeOption)
    requires ChannelValue(m1) == ChannelValue(m2)
    ensures m1 == m2
  {
  }
}
