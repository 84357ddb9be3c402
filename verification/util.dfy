/**
 * The configuration-value helpers of the shared `util` package that the core
 * calls: the boolean word lists and the comma-list splitter. Their source is
 * not part of this model; they are written here with the word lists the
 * package documents ("true", "1", "yes", "on" and "false", "0", "no", "off",
 * compared case-insensitively).
 */
module Util {
  import Strs

  /** A configuration: string keys to string values. */
  type Config = map<string, string>

  /** A Go map read: a missing key gives "". */
  function Get(c: Config, key: string): string
  {
    if key in c then c[key] else ""
  }

  /**
   * `order` lists the keys of `c`: Go does not fix the iteration order of a
   * map, so a loop over a map is modelled as a loop over such a sequence.
   */
  ghost predicate KeyOrder<V>(c: map<string, V>, order: seq<string>)
  {
    forall k :: k in order <==> k in c
  }

  predicate IsTrue(value: string)
  {
    Strs.ToLower(value) in ["true", "1", "yes", "on"]
  }

  predicate IsFalse(value: string)
  {
    Strs.ToLower(value) in ["false", "0", "no", "off"]
  }

  /** True, or unset (the default of keys that are on unless switched off). */
  predicate IsTrueOrEmpty(value: string)
  {
    value == "" || IsTrue(value)
  }

  /** False, or unset (the default of keys that are off unless switched on). */
  predicate IsFalseOrEmpty(value: string)
  {
    value == "" || IsFalse(value)
  }

  /** Unset, or the explicit word "none". */
  predicate IsNoneOrEmpty(value: string)
  {
    value == "" || value == "none"
  }

  /**
   * SplitNTrimSpace(s, sep, -1, true): the empty string gives no items,
   * anything else every separated item with its white space trimmed.
   */
  function SplitNTrimSpace(s: string, sep: char): (items: seq<string>)
    ensures s == "" <==> items == []
    ensures s != "" ==> |items| == |Strs.Split(s, sep)|
    ensures forall i :: 0 <= i < |items| ==> items[i] == Strs.TrimSpace(Strs.Split(s, sep)[i])
  {
    if s == "" then [] else TrimAll(Strs.Split(s, sep))
  }

  function TrimAll(parts: seq<string>): (r: seq<string>)
    ensures |r| == |parts|
    ensures forall i :: 0 <= i < |r| ==> r[i] == Strs.TrimSpace(parts[i])
  {
    if |parts| == 0 then []
    else
      var rest := TrimAll(parts[1..]);
      assert forall i :: 1 <= i < |parts| ==> rest[i - 1] == Strs.TrimSpace(parts[i]);
      [Strs.TrimSpace(parts[0])] + rest
  }
}
