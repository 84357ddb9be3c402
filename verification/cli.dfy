/**
 * What the `list` commands of the command-line client share: the column
 * flag, a comma list of entries of one-letter column shorthands, and the
 * rewriting of client filters into filters the server understands.
 */
module Cli {
  import opened Wrappers
  import Strs

  function ErrEmptyEntry(flag: string): string
  {
    "Empty column entry (redundant, leading or trailing command) in '" + flag + "'"
  }

  function ErrUnknownShorthand(ch: char, entry: string): string
  {
    "Unknown column shorthand char '" + [ch] + "' in '" + entry + "'"
  }

  /** The index of the first character of `entry`, from `i` on, that is not a known shorthand. */
  function FirstUnknownRune(entry: string, known: set<char>, i: nat): (r: Option<nat>)
    requires i <= |entry|
    ensures r.None? <==> forall j :: i <= j < |entry| ==> entry[j] in known
    ensures r.Some? ==> i <= r.value < |entry| && entry[r.value] !in known
    ensures r.Some? ==> forall j :: i <= j < r.value ==> entry[j] in known
    decreases |entry| - i
  {
    if i == |entry| then None
    else if entry[i] !in known then Some(i)
    else FirstUnknownRune(entry, known, i + 1)
  }

  /** An entry of shorthands gives its letters in order, or names its first unknown letter. */
  function ShorthandRunes(entry: string, known: set<char>): (r: Result<seq<char>>)
    ensures r.Ok? <==> forall j :: 0 <= j < |entry| ==> entry[j] in known
    ensures r.Ok? ==> r.value == entry
    ensures r.Err? ==> (exists j :: 0 <= j < |entry| && entry[j] !in known &&
                         (forall k :: 0 <= k < j ==> entry[k] in known) && r.msg == ErrUnknownShorthand(entry[j], entry))
  {
    match FirstUnknownRune(entry, known, 0)
    case None => Ok(entry)
    case Some(j) => Err(ErrUnknownShorthand(entry[j], entry))
  }

  /** Looks each letter up in turn, collecting the columns and stopping at the first unknown one. */
  method ScanShorthands(entry: string, known: set<char>) returns (r: Result<seq<char>>)
    ensures r == ShorthandRunes(entry, known)
  {
    var runes: seq<char> := [];
    var i := 0;
    while i < |entry|
      invariant 0 <= i <= |entry|
      invariant runes == entry[..i]
      invariant FirstUnknownRune(entry, known, 0) == FirstUnknownRune(entry, known, i)
    {
      if entry[i] !in known {
        return Err(ErrUnknownShorthand(entry[i], entry));
      }
      runes := runes + [entry[i]];
      i := i + 1;
    }
    assert entry[..i] == entry;
    return Ok(runes);
  }

  /**
   * A bare filter word `k` selects by name: the exact name `^k$` (or `k`
   * itself when it already holds an anchor), or any name starting with `k`.
   */
  function NameFilter(key: string): (f: string)
    ensures "name=(" <= f
  {
    var exact := if '^' !in key && '$' !in key then "^" + key + "$" else key;
    "name=(" + exact + "|^" + key + ".*)"
  }

  /**
   * What the server reads of a bare word's filter: the field `name`, and a
   * pattern with two alternatives, the word anchored at both ends (or as
   * written when it carries an anchor of its own) and any name it begins.
   */
  lemma NameFilterAlternatives(key: string)
    requires '=' !in key
    ensures !('^' in key || '$' in key) ==>
      Strs.SplitN2(NameFilter(key), '=') == ["name", "(^" + key + "$|^" + key + ".*)"]
    ensures ('^' in key || '$' in key) ==>
      Strs.SplitN2(NameFilter(key), '=') == ["name", "(" + key + "|^" + key + ".*)"]
  {
    if '^' in key || '$' in key {
      var tail := "(" + key + "|^" + key + ".*)";
      assert NameFilter(key) == "name" + "=" + tail;
      assert '=' !in "name";
      Strs.SplitN2Concat("name", '=', tail);
    } else {
      var tail := "(^" + key + "$|^" + key + ".*)";
      assert NameFilter(key) == "name" + "=" + tail;
      assert '=' !in "name";
      Strs.SplitN2Concat("name", '=', tail);
    }
  }

  /** The part of a filter key before its first '.', the field the server is asked about. */
  function KeyHead(key: string): (h: string)
    ensures '.' !in h
    ensures '.' !in key ==> h == key
    ensures '.' in key ==> h + "." <= key
  {
    if '.' in key then
      var d := Strs.SplitN2(key, '.');
      Strs.SplitConcat(d[0], '.', d[1]);
      Strs.Split(key, '.')[0]
    else key
  }
}
