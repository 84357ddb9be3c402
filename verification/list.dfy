/**
 * `list` for instances in the command-line client: the column flag and its
 * custom config and device columns, the client-side shorthand filters, the
 * server-side filters, and the base image and type columns.
 */
module List {
  import opened Wrappers
  import Strs
  import opened Util
  import Cli

  const DefaultColumns := "ns46tSL"
  const DefaultColumnsAllProjects := "ens46tSL"
  const FastColumns := "nsacPt"
  const FastColumnsAllProjects := "ensacPt"

  /** The shorthand letters known whether or not the server is clustered ('L', the location, only when it is). */
  const Shorthands: set<char> := {'4', '6', 'a', 'b', 'c', 'd', 'D', 'e', 'f', 'F', 'l', 'm', 'M', 'n', 'N', 'p', 'P', 'S', 's', 't', 'u', 'U'}

  /** The shorthands whose data needs the instance state or its snapshots. */
  const NeedsData: set<char> := {'4', '6', 'D', 'm', 'M', 'N', 'p', 'u', 'U', 'S'}

  function KnownShorthands(clustered: bool): set<char>
  {
    if clustered then Shorthands + {'L'} else Shorthands
  }

  /**
   * A column: a shorthand letter, or a custom column on a config key
   * (`colType` "config") or a device key (`colType` "devices"), with a header
   * and a maximum width (-1 for none).
   */
  datatype Column = Shorthand(ch: char) | Custom(colType: string, key: string, name: string, maxWidth: int)

  predicate ColumnNeedsData(c: Column)
  {
    c.Shorthand? && c.ch in NeedsData
  }

  // ---------------------------------------------------------------------
  // The column flag
  // ---------------------------------------------------------------------

  const ErrFastWithColumns := "Can't specify --fast with --columns"
  const ErrLocationNotClustered := "Can't specify column L when not clustered"

  /**
   * The column flag after `--all-projects` and `--fast`: all projects adds
   * the project column to the default; fast replaces a default with its
   * fast form and refuses any other flag.
   */
  function EffectiveFlag(flag: string, fast: bool, allProjects: bool): (r: Result<string>)
    ensures fast ==> (r.Ok? <==> flag in [DefaultColumns, DefaultColumnsAllProjects])
    ensures fast && r.Ok? ==> r.value == (if flag == DefaultColumnsAllProjects || allProjects then FastColumnsAllProjects else FastColumns)
    ensures !fast ==> r == Ok(if allProjects && flag == DefaultColumns then DefaultColumnsAllProjects else flag)
    ensures r.Err? ==> r.msg == ErrFastWithColumns
  {
    var f := if allProjects && flag == DefaultColumns then DefaultColumnsAllProjects else flag;
    if !fast then Ok(f)
    else if f != DefaultColumns && f != DefaultColumnsAllProjects then Err(ErrFastWithColumns)
    else Ok(if f == DefaultColumnsAllProjects then FastColumnsAllProjects else FastColumns)
  }

  /**
   * A shorthand entry. Without clustering, 'L' is refused in an entry of
   * one's own and silently dropped from the two defaults.
   */
  function ShorthandEntry(entry: string, clustered: bool): (r: Result<seq<Column>>)
    ensures !clustered && 'L' in entry && entry !in [DefaultColumns, DefaultColumnsAllProjects] ==> r == Err(ErrLocationNotClustered)
    ensures r.Ok? ==> forall c :: c in r.value ==> c.Shorthand? && c.ch in KnownShorthands(clustered)
    ensures r.Ok? && clustered ==> |r.value| == |entry| && forall i :: 0 <= i < |entry| ==> r.value[i] == Shorthand(entry[i])
    ensures r.Ok? && !clustered ==> (|r.value| == |Strs.RemoveChar(entry, 'L')| &&
                                     forall i :: 0 <= i < |r.value| ==> r.value[i] == Shorthand(Strs.RemoveChar(entry, 'L')[i]))
  {
    if !clustered && entry != DefaultColumns && entry != DefaultColumnsAllProjects && 'L' in entry then Err(ErrLocationNotClustered)
    else
      var e := if !clustered then Strs.RemoveChar(entry, 'L') else entry;
      match Cli.ShorthandRunes(e, KnownShorthands(clustered))
      case Err(m) => Err(m)
      case Ok(runes) => Ok(seq(|runes|, i requires 0 <= i < |runes| => Shorthand(runes[i])))
  }

  /** An entry parses when 'L' may appear in it and every letter left is known. */
  lemma ShorthandEntryOk(entry: string, clustered: bool)
    requires clustered || entry in [DefaultColumns, DefaultColumnsAllProjects] || 'L' !in entry
    requires var e := if clustered then entry else Strs.RemoveChar(entry, 'L');
      forall j :: 0 <= j < |e| ==> e[j] in KnownShorthands(clustered)
    ensures ShorthandEntry(entry, clustered).Ok?
  {
    var e := if clustered then entry else Strs.RemoveChar(entry, 'L');
    assert Cli.ShorthandRunes(e, KnownShorthands(clustered)).Ok?;
  }

  lemma RemoveLFromDefaults()
    ensures Strs.RemoveChar(DefaultColumns, 'L') == "ns46tS"
    ensures Strs.RemoveChar(DefaultColumnsAllProjects, 'L') == "ens46tS"
  {
    assert DefaultColumns == "ns46tS" + "L";
    assert DefaultColumnsAllProjects == "ens46tS" + "L";
    Strs.RemoveCharAppend("ns46tS", "L", 'L');
    Strs.RemoveCharAppend("ens46tS", "L", 'L');
    assert Strs.RemoveChar("L", 'L') == "";
  }

  /** The two defaults parse without clustering: they lose their 'L' and keep their other letters. */
  lemma DefaultsWithoutClustering()
    ensures ShorthandEntry(DefaultColumns, false).Ok? && ShorthandEntry(DefaultColumnsAllProjects, false).Ok?
    ensures Strs.RemoveChar(DefaultColumns, 'L') == "ns46tS"
    ensures Strs.RemoveChar(DefaultColumnsAllProjects, 'L') == "ens46tS"
  {
    RemoveLFromDefaults();
    var a := "ns46tS";
    var b := "ens46tS";
    assert forall j :: 0 <= j < |a| ==> a[j] in KnownShorthands(false);
    assert forall j :: 0 <= j < |b| ==> b[j] in KnownShorthands(false);
    ShorthandEntryOk(DefaultColumns, false);
    ShorthandEntryOk(DefaultColumnsAllProjects, false);
  }

  function ErrTooManyFields(entry: string): string
  {
    "Invalid config key column format (too many fields): '" + entry + "'"
  }

  function ErrBadWidth(width: string, entry: string): string
  {
    "Invalid max width (must be an integer) '" + width + "' in '" + entry + "'"
  }

  function ErrNegativeWidth(width: string, entry: string): string
  {
    "Invalid max width (must -1, 0 or a positive integer) '" + width + "' in '" + entry + "'"
  }

  /** The fields of a custom column entry after its optional "config:" or "devices:" type prefix. */
  function CustomFields(entry: string): (string, seq<string>)
  {
    var cc := Strs.Split(entry, ':');
    if (cc[0] == "config" || cc[0] == "devices") && |cc| > 1 then (cc[0], cc[1..]) else ("config", cc)
  }

  /** The maximum width the optional third field asks for: 0 means the header's length. */
  function MaxWidth(cc: seq<string>, name: string, entry: string): (r: Result<int>)
    ensures |cc| <= 2 ==> r == Ok(-1)
    ensures r.Ok? ==> r.value >= -1
    ensures |cc| > 2 ==> (r.Ok? <==> Strs.ParseInt(cc[2], 64).Some? && Strs.ParseInt(cc[2], 64).value >= -1)
    ensures |cc| > 2 && r.Ok? ==> r.value == (if Strs.ParseInt(cc[2], 64).value == 0 then Strs.ByteLen(name) else Strs.ParseInt(cc[2], 64).value)
  {
    if |cc| <= 2 then Ok(-1)
    else match Strs.ParseInt(cc[2], 64)
      case None => Err(ErrBadWidth(cc[2], entry))
      case Some(w) =>
        if w < -1 then Err(ErrNegativeWidth(cc[2], entry))
        else if w == 0 then Ok(Strs.ByteLen(name))
        else Ok(w)
  }

  /**
   * A custom column `[config:|devices:]<key>[:<name>[:<max width>]]`. A
   * config key must be one the instance accepts (`validKey`); the header
   * defaults to the key and may be empty only when a width follows.
   */
  function CustomEntry(entry: string, validKey: string -> bool): (r: Result<Column>)
    ensures |CustomFields(entry).1| > 3 ==> r == Err(ErrTooManyFields(entry))
    ensures r.Ok? ==> r.value.Custom? && r.value.maxWidth >= -1
    ensures r.Ok? ==> r.value.colType in ["config", "devices"] && (r.value.colType == "config" ==> validKey(r.value.key))
    ensures var (colType, cc) := CustomFields(entry);
      r.Ok? <==> |cc| <= 3 && (colType == "config" ==> validKey(cc[0])) && !(|cc| > 1 && cc[1] == "" && |cc| != 3) &&
                 MaxWidth(cc, if |cc| > 1 then cc[1] else cc[0], entry).Ok?
    ensures var (colType, cc) := CustomFields(entry);
      r.Ok? ==> r.value.colType == colType && r.value.key == cc[0] &&
                r.value.name == (if |cc| > 1 then cc[1] else cc[0]) &&
                (|cc| <= 2 ==> r.value.maxWidth == -1) &&
                (|cc| == 3 && Strs.ParseInt(cc[2], 64) == Some(0) ==> r.value.maxWidth == Strs.ByteLen(r.value.name)) &&
                (|cc| == 3 && Strs.ParseInt(cc[2], 64) != Some(0) ==> Strs.ParseInt(cc[2], 64) == Some(r.value.maxWidth))
  {
    var (colType, cc) := CustomFields(entry);
    if |cc| > 3 then Err(ErrTooManyFields(entry))
    else
      var k := cc[0];
      if colType == "config" && !validKey(k) then Err("Invalid config key '" + k + "' in '" + entry + "'")
      else if |cc| > 1 && cc[1] == "" && |cc| != 3 then
        Err("Invalid name in '" + entry + "', empty string is only allowed when defining maxWidth")
      else
        var name := if |cc| > 1 then cc[1] else k;
        match MaxWidth(cc, name, entry)
        case Err(m) => Err(m)
        case Ok(w) => Ok(Custom(colType, k, name, w))
  }

  /** One entry of the flag: shorthands when it holds no '.', a custom column otherwise. */
  function EntryColumns(entry: string, flag: string, clustered: bool, validKey: string -> bool): (r: Result<seq<Column>>)
    ensures entry == "" ==> r == Err(Cli.ErrEmptyEntry(flag))
  {
    if entry == "" then Err(Cli.ErrEmptyEntry(flag))
    else if '.' !in entry then ShorthandEntry(entry, clustered)
    else match CustomEntry(entry, validKey)
      case Err(m) => Err(m)
      case Ok(c) => Ok([c])
  }

  /** The columns of the entries, in order; the first entry in error stops the parse. */
  function EntriesColumns(entries: seq<string>, flag: string, clustered: bool, validKey: string -> bool): (r: Result<seq<Column>>)
  {
    if |entries| == 0 then Ok([])
    else match EntriesColumns(entries[..|entries| - 1], flag, clustered, validKey)
      case Err(m) => Err(m)
      case Ok(cs) =>
        match EntryColumns(entries[|entries| - 1], flag, clustered, validKey)
        case Err(m) => Err(m)
        case Ok(more) => Ok(cs + more)
  }

  /** The parse of the whole flag: the columns and whether any needs state or snapshot data. */
  function ColumnsOf(flag: string, fast: bool, allProjects: bool, clustered: bool, validKey: string -> bool): Result<(seq<Column>, bool)>
  {
    match EffectiveFlag(flag, fast, allProjects)
    case Err(m) => Err(m)
    case Ok(f) => EntriesParse(Strs.Split(f, ','), f, clustered, validKey)
  }

  /** The columns of the entries and whether any needs state or snapshot data. */
  function EntriesParse(entries: seq<string>, flag: string, clustered: bool, validKey: string -> bool): Result<(seq<Column>, bool)>
  {
    match EntriesColumns(entries, flag, clustered, validKey)
    case Err(m) => Err(m)
    case Ok(cs) => Ok((cs, exists c :: c in cs && ColumnNeedsData(c)))
  }

  /** An accepted flag has no empty entry, and every entry parses on its own. */
  lemma {:induction false} EntriesColumnsOk(entries: seq<string>, flag: string, clustered: bool, validKey: string -> bool)
    requires EntriesColumns(entries, flag, clustered, validKey).Ok?
    ensures forall i :: 0 <= i < |entries| ==> entries[i] != "" && EntryColumns(entries[i], flag, clustered, validKey).Ok?
  {
    if |entries| > 0 {
      var init := entries[..|entries| - 1];
      EntriesColumnsOk(init, flag, clustered, validKey);
      assert forall i :: 0 <= i < |init| ==> init[i] == entries[i];
    }
  }

  /** Every entry of an accepted flag contributes its columns, in flag order. */
  lemma {:induction false} EntriesColumnsInOrder(entries: seq<string>, flag: string, clustered: bool, validKey: string -> bool)
    requires EntriesColumns(entries, flag, clustered, validKey).Ok?
    ensures forall i :: 0 <= i < |entries| ==> EntryColumns(entries[i], flag, clustered, validKey).Ok?
    ensures EntriesColumns(entries, flag, clustered, validKey).value == EntriesConcat(entries, flag, clustered, validKey)
  {
    EntriesColumnsOk(entries, flag, clustered, validKey);
    if |entries| > 0 {
      var init := entries[..|entries| - 1];
      EntriesColumnsInOrder(init, flag, clustered, validKey);
      assert forall i :: 0 <= i < |init| ==> init[i] == entries[i];
    }
  }

  /** The columns of the entries run together, each entry's in its own order. */
  function EntriesConcat(entries: seq<string>, flag: string, clustered: bool, validKey: string -> bool): seq<Column>
    requires forall i :: 0 <= i < |entries| ==> EntryColumns(entries[i], flag, clustered, validKey).Ok?
  {
    if |entries| == 0 then []
    else EntriesConcat(entries[..|entries| - 1], flag, clustered, validKey) + EntryColumns(entries[|entries| - 1], flag, clustered, validKey).value
  }

  /** An entry of known letters, none 'L' and none needing instance data, parses to columns that need none. */
  lemma FastEntryNeedsNothing(f: string, clustered: bool)
    requires 'L' !in f
    requires forall j :: 0 <= j < |f| ==> f[j] in KnownShorthands(clustered) && f[j] !in NeedsData
    ensures ShorthandEntry(f, clustered).Ok?
    ensures forall c :: c in ShorthandEntry(f, clustered).value ==> !ColumnNeedsData(c)
  {
    ShorthandEntryOk(f, clustered);
  }

  /** The fast flags are single entries of known letters, none of which needs the instance state or snapshots. */
  lemma FastLettersKnown(f: string, clustered: bool)
    requires f in [FastColumns, FastColumnsAllProjects]
    ensures f != "" && 'L' !in f && ',' !in f && '.' !in f
    ensures forall j :: 0 <= j < |f| ==> f[j] in KnownShorthands(clustered) && f[j] !in NeedsData
  {
    if f == FastColumns { assert f == ['n', 's', 'a', 'c', 'P', 't']; }
    else { assert f == ['e', 'n', 's', 'a', 'c', 'P', 't']; }
  }

  /** A flag of one entry of letters whose columns need no instance data parses to those columns and `false`. */
  lemma FastEntriesParse(f: string, clustered: bool, validKey: string -> bool)
    requires f != "" && ',' !in f && '.' !in f
    requires ShorthandEntry(f, clustered).Ok?
    requires forall c :: c in ShorthandEntry(f, clustered).value ==> !ColumnNeedsData(c)
    ensures EntriesParse(Strs.Split(f, ','), f, clustered, validKey) == Ok((ShorthandEntry(f, clustered).value, false))
  {
    SingleShorthandEntry(f, clustered, validKey);
    EntriesParseNoData(Strs.Split(f, ','), f, clustered, validKey, ShorthandEntry(f, clustered).value);
  }

  /** A flag of one entry of letters has that entry's shorthand columns. */
  lemma SingleShorthandEntry(f: string, clustered: bool, validKey: string -> bool)
    requires f != "" && ',' !in f && '.' !in f
    ensures EntriesColumns(Strs.Split(f, ','), f, clustered, validKey) == ShorthandEntry(f, clustered)
  {
    Strs.SplitNoSep(f, ',');
    EntriesColumnsSingle(f, f, clustered, validKey);
  }

  /** Entries whose columns need no instance data parse to those columns and `false`. */
  lemma EntriesParseNoData(entries: seq<string>, flag: string, clustered: bool, validKey: string -> bool, cs: seq<Column>)
    requires EntriesColumns(entries, flag, clustered, validKey) == Ok(cs)
    requires forall c :: c in cs ==> !ColumnNeedsData(c)
    ensures EntriesParse(entries, flag, clustered, validKey) == Ok((cs, false))
  {
  }

  /** A flag of one entry has that entry's columns. */
  lemma EntriesColumnsSingle(e: string, flag: string, clustered: bool, validKey: string -> bool)
    ensures EntriesColumns([e], flag, clustered, validKey) == EntryColumns(e, flag, clustered, validKey)
  {
    var none: seq<string> := [];
    assert [e][..0] == none;
    assert EntriesColumns(none, flag, clustered, validKey) == Ok([]);
    match EntryColumns(e, flag, clustered, validKey)
    case Err(m) =>
    case Ok(more) => assert [] + more == more;
  }

  /** `--fast` on a default flag parses, and none of its columns needs the instance state or snapshots. */
  lemma FastColumnsParse(flag: string, allProjects: bool, clustered: bool, validKey: string -> bool)
    requires flag in [DefaultColumns, DefaultColumnsAllProjects]
    ensures ColumnsOf(flag, true, allProjects, clustered, validKey).Ok?
    ensures !ColumnsOf(flag, true, allProjects, clustered, validKey).value.1
  {
    var f := if flag == DefaultColumnsAllProjects || allProjects then FastColumnsAllProjects else FastColumns;
    assert EffectiveFlag(flag, true, allProjects) == Ok(f);
    FastLettersKnown(f, clustered);
    FastEntryNeedsNothing(f, clustered);
    FastEntriesParse(f, clustered, validKey);
  }

  /**
   * Splits the flag at commas and parses each entry: shorthand letters one
   * at a time, or one custom column.
   */
  method ParseColumns(flag: string, fast: bool, allProjects: bool, clustered: bool, validKey: string -> bool)
    returns (r: Result<(seq<Column>, bool)>)
    ensures r == ColumnsOf(flag, fast, allProjects, clustered, validKey)
  {
    var f := flag;
    if allProjects && f == DefaultColumns {
      f := DefaultColumnsAllProjects;
    }
    if fast {
      if f != DefaultColumns && f != DefaultColumnsAllProjects {
        return Err(ErrFastWithColumns);
      }
      if f == DefaultColumnsAllProjects {
        f := FastColumnsAllProjects;
      } else {
        f := FastColumns;
      }
    }
    assert EffectiveFlag(flag, fast, allProjects) == Ok(f);
    r := ParseEntries(Strs.Split(f, ','), f, clustered, validKey);
  }

  /** Parses the entries, then notes whether any column needs instance data. */
  method ParseEntries(entries: seq<string>, flag: string, clustered: bool, validKey: string -> bool)
    returns (r: Result<(seq<Column>, bool)>)
    ensures r == EntriesParse(entries, flag, clustered, validKey)
  {
    var columns := CollectColumns(entries, flag, clustered, validKey);
    if columns.Err? {
      return Err(columns.msg);
    }
    var needsData := AnyNeedsData(columns.value);
    return Ok((columns.value, needsData));
  }

  /** Parses the entries in turn, stopping at the first one in error. */
  method CollectColumns(entries: seq<string>, flag: string, clustered: bool, validKey: string -> bool)
    returns (r: Result<seq<Column>>)
    ensures r == EntriesColumns(entries, flag, clustered, validKey)
  {
    var columns: seq<Column> := [];
    var i := 0;
    while i < |entries|
      invariant 0 <= i <= |entries|
      invariant EntriesColumns(entries[..i], flag, clustered, validKey) == Ok(columns)
    {
      var next := NextEntryColumns(entries, flag, clustered, validKey, i, columns);
      if next.Err? {
        return next;
      }
      columns := next.value;
      i := i + 1;
    }
    assert entries[..i] == entries;
    return Ok(columns);
  }

  /** Parses entry `i` onto the columns of the entries before it; its error is the whole parse's error. */
  method NextEntryColumns(entries: seq<string>, flag: string, clustered: bool, validKey: string -> bool,
                          i: nat, columns: seq<Column>) returns (r: Result<seq<Column>>)
    requires i < |entries| && EntriesColumns(entries[..i], flag, clustered, validKey) == Ok(columns)
    ensures r.Ok? ==> r == EntriesColumns(entries[..i + 1], flag, clustered, validKey)
    ensures r.Err? ==> r == EntriesColumns(entries, flag, clustered, validKey)
  {
    var more := EntryColumnsStep(entries[i], flag, clustered, validKey);
    EntriesColumnsNext(entries, flag, clustered, validKey, i);
    if more.Err? {
      EntriesErrPrefix(entries, flag, clustered, validKey, i + 1);
      return Err(more.msg);
    }
    return Ok(columns + more.value);
  }

  /** Whether some column needs state or snapshot data. */
  method AnyNeedsData(cs: seq<Column>) returns (b: bool)
    ensures b <==> exists c :: c in cs && ColumnNeedsData(c)
  {
    b := false;
    var j := 0;
    while j < |cs|
      invariant 0 <= j <= |cs|
      invariant b <==> exists c :: c in cs[..j] && ColumnNeedsData(c)
    {
      assert cs[..j + 1] == cs[..j] + [cs[j]];
      if ColumnNeedsData(cs[j]) {
        b := true;
      }
      j := j + 1;
    }
    assert cs[..j] == cs;
  }

  /** One entry: shorthand letters looked up in turn, or a custom column. */
  method EntryColumnsStep(entry: string, flag: string, clustered: bool, validKey: string -> bool) returns (r: Result<seq<Column>>)
    ensures r == EntryColumns(entry, flag, clustered, validKey)
  {
    if entry == "" {
      return Err(Cli.ErrEmptyEntry(flag));
    }
    if '.' in entry {
      var c := CustomEntry(entry, validKey);
      if c.Err? {
        return Err(c.msg);
      }
      return Ok([c.value]);
    }
    var e := entry;
    if !clustered {
      if entry != DefaultColumns && entry != DefaultColumnsAllProjects && 'L' in entry {
        return Err(ErrLocationNotClustered);
      }
      e := Strs.RemoveChar(entry, 'L');
    }
    var runes := Cli.ScanShorthands(e, KnownShorthands(clustered));
    if runes.Err? {
      return Err(runes.msg);
    }
    return Ok(seq(|runes.value|, k requires 0 <= k < |runes.value| => Shorthand(runes.value[k])));
  }

  /** One more entry extends the columns of the entries before it, or reports its own error. */
  lemma EntriesColumnsNext(entries: seq<string>, flag: string, clustered: bool, validKey: string -> bool, i: nat)
    requires i < |entries| && EntriesColumns(entries[..i], flag, clustered, validKey).Ok?
    ensures EntriesColumns(entries[..i + 1], flag, clustered, validKey) ==
      match EntryColumns(entries[i], flag, clustered, validKey)
      case Err(m) => Err(m)
      case Ok(more) => Ok(EntriesColumns(entries[..i], flag, clustered, validKey).value + more)
  {
    assert entries[..i + 1][..i] == entries[..i];
  }

  /** Once a prefix of the entries is in error, the whole parse has that error. */
  lemma {:induction false} EntriesErrPrefix(entries: seq<string>, flag: string, clustered: bool, validKey: string -> bool, n: nat)
    requires n <= |entries| && EntriesColumns(entries[..n], flag, clustered, validKey).Err?
    ensures EntriesColumns(entries, flag, clustered, validKey) == EntriesColumns(entries[..n], flag, clustered, validKey)
    decreases |entries| - n
  {
    if n < |entries| {
      var init := entries[..|entries| - 1];
      assert init[..n] == entries[..n];
      EntriesErrPrefix(init, flag, clustered, validKey, n);
    } else {
      assert entries[..n] == entries;
    }
  }

  // ---------------------------------------------------------------------
  // Column data
  // ---------------------------------------------------------------------

  /**
   * A value cut to a positive maximum width in bytes, as Go's `len(v)` and
   * `v[:maxWidth]` count; -1 and 0 widths leave it whole.
   */
  function Truncate(v: string, maxWidth: int): (r: string)
    ensures r <= v
    ensures maxWidth > 0 ==> Strs.ByteLen(r) <= maxWidth
    ensures maxWidth <= 0 || Strs.ByteLen(v) <= maxWidth ==> r == v
    ensures maxWidth > 0 && Strs.ByteLen(v) > maxWidth ==> |r| < |v| && Strs.ByteLen(r) + Strs.Utf8Width(v[|r|]) > maxWidth
  {
    if maxWidth > 0 && Strs.ByteLen(v) > maxWidth then
      var r := Strs.BytePrefix(v, maxWidth);
      assert r != v;
      r
    else v
  }

  /** On ASCII values the cut keeps exactly the first `maxWidth` characters, as Go's byte slice does. */
  lemma TruncateAscii(v: string, maxWidth: int)
    requires Strs.IsAscii(v)
    ensures Truncate(v, maxWidth) == if maxWidth > 0 && |v| > maxWidth then v[..maxWidth] else v
  {
    if maxWidth > 0 {
      Strs.BytePrefixAscii(v, maxWidth);
    }
  }

  /** A config column: the instance's own value, else its expanded value, cut to the width. */
  function ConfigColumnData(local: Config, expanded: Config, key: string, maxWidth: int): (r: string)
    ensures var v := if key in local then local[key] else Get(expanded, key);
      r <= v && (maxWidth <= 0 || Strs.ByteLen(v) <= maxWidth ==> r == v)
    ensures maxWidth > 0 ==> Strs.ByteLen(r) <= maxWidth
  {
    Truncate(if key in local then local[key] else Get(expanded, key), maxWidth)
  }

  /** A device column `<device>.<key>`: the device's own value, else the expanded one; "" for a key without '.'. */
  function DeviceColumnData(devices: map<string, Config>, expanded: map<string, Config>, key: string, maxWidth: int): (r: string)
    ensures '.' !in key ==> r == ""
    ensures maxWidth > 0 ==> Strs.ByteLen(r) <= maxWidth
  {
    var d := Strs.SplitN2(key, '.');
    if |d| == 1 then ""
    else
      var v := if d[0] in devices && d[1] in devices[d[0]] then devices[d[0]][d[1]]
               else if d[0] in expanded then Get(expanded[d[0]], d[1]) else "";
      Truncate(v, maxWidth)
  }

  /** A device's value for a key: its own, else the expanded device's, else "". */
  function DeviceValue(devices: map<string, Config>, expanded: map<string, Config>, device: string, key: string): string
  {
    if device in devices && key in devices[device] then devices[device][key]
    else if device in expanded then Get(expanded[device], key) else ""
  }

  /**
   * The column `<device>.<key>` (the device name holding no '.') shows the
   * device's own value for the key, else the expanded device's, cut to the
   * width; the key may itself hold further dots.
   */
  lemma DeviceColumnOf(devices: map<string, Config>, expanded: map<string, Config>, device: string, key: string, maxWidth: int)
    requires '.' !in device
    ensures var v := DeviceValue(devices, expanded, device, key);
      var r := DeviceColumnData(devices, expanded, device + "." + key, maxWidth);
      r <= v && (maxWidth <= 0 || Strs.ByteLen(v) <= maxWidth ==> r == v)
    ensures device in devices && key in devices[device] ==>
      DeviceColumnData(devices, expanded, device + "." + key, maxWidth) <= devices[device][key]
    ensures !(device in devices && key in devices[device]) && device !in expanded ==>
      DeviceColumnData(devices, expanded, device + "." + key, maxWidth) == ""
  {
    Strs.SplitN2Concat(device, '.', key);
  }

  /** The base image column: the fingerprint in `volatile.base_image`, its first 12 characters unless long. */
  function BaseImage(config: Config, long: bool): (r: string)
    ensures "volatile.base_image" !in config ==> r == ""
    ensures "volatile.base_image" in config ==> r <= config["volatile.base_image"]
    ensures !long ==> |r| <= 12
    ensures long ==> r == Get(config, "volatile.base_image")
  {
    if "volatile.base_image" !in config then ""
    else
      var v := config["volatile.base_image"];
      if !long && |v| >= 12 then v[..12] else v
  }

  /** The type column: the upper-cased type ("CONTAINER" when empty), marked as an app container and as ephemeral. */
  function TypeColumnData(instanceType: string, expanded: Config, ephemeral: bool): (r: string)
    ensures var t := if instanceType == "" then "CONTAINER" else Strs.ToUpper(instanceType);
      var app := IsTrue(Get(expanded, "volatile.container.oci"));
      (!app && !ephemeral ==> r == t) &&
      (app && !ephemeral ==> r == t + " (APP)") &&
      (!app && ephemeral ==> r == t + " (EPHEMERAL)") &&
      (app && ephemeral ==> r == t + " (APP) (EPHEMERAL)")
  {
    var upper := Strs.ToUpper(instanceType);
    var t := if upper == "" then "CONTAINER" else upper;
    assert |upper| == |instanceType|;
    var app := if IsTrue(Get(expanded, "volatile.container.oci")) then t + " (APP)" else t;
    if ephemeral then app + " (EPHEMERAL)" else app
  }

  // ---------------------------------------------------------------------
  // Filters
  // ---------------------------------------------------------------------

  /** The shorthand filter keys (compared case-insensitively). */
  const ShorthandFilterKeys: seq<string> := ["ipv4", "ipv6"]

  /**
   * A client-side shorthand filter: false for any other key; true when the
   * value matches, or when one of its comma-separated values does.
   * `matches(k, v)` is the address match of key `k` (ipv4 or ipv6).
   */
  function ShorthandFilter(matches: (string, string) -> bool, key: string, value: string): (b: bool)
    ensures Strs.ToLower(key) !in ShorthandFilterKeys ==> !b
    ensures Strs.ToLower(key) in ShorthandFilterKeys && ',' !in value ==> (b <==> matches(Strs.ToLower(key), value))
    ensures Strs.ToLower(key) in ShorthandFilterKeys && ',' in value ==>
      (b <==> AnyMatches(matches, Strs.ToLower(key), Strs.Split(value, ',')))
  {
    var k := Strs.ToLower(key);
    if k !in ShorthandFilterKeys then false
    else if ',' !in value then matches(k, value)
    else AnyMatches(matches, k, Strs.Split(value, ','))
  }

  predicate AnyMatches(matches: (string, string) -> bool, k: string, values: seq<string>)
  {
    exists i :: 0 <= i < |values| && matches(k, values[i])
  }

  /** Tries every comma-separated value (it does not stop at the first match). */
  method EvaluateShorthandFilter(matches: (string, string) -> bool, key: string, value: string) returns (b: bool)
    ensures b == ShorthandFilter(matches, key, value)
  {
    var k := Strs.ToLower(key);
    if k !in ShorthandFilterKeys {
      return false;
    }
    if ',' !in value {
      return matches(k, value);
    }
    var values := Strs.Split(value, ',');
    var matched := false;
    var i := 0;
    while i < |values|
      invariant 0 <= i <= |values|
      invariant matched <==> exists j :: 0 <= j < i && matches(k, values[j])
    {
      if matches(k, values[i]) {
        matched := true;
      }
      i := i + 1;
    }
    return matched;
  }

  /** The key and value of a `key=value` filter; a bare word has the value "". */
  function FilterParts(filter: string): (string, string)
  {
    var membs := Strs.SplitN2(filter, '=');
    (membs[0], if |membs| < 2 then "" else membs[1])
  }

  /** An instance is shown when every client-side filter holds (so always, with no filters). */
  method ShouldShow(matches: (string, string) -> bool, filters: seq<string>) returns (b: bool)
    ensures b <==> forall i :: 0 <= i < |filters| ==> ShorthandFilter(matches, FilterParts(filters[i]).0, FilterParts(filters[i]).1)
  {
    var i := 0;
    while i < |filters|
      invariant 0 <= i <= |filters|
      invariant forall j :: 0 <= j < i ==> ShorthandFilter(matches, FilterParts(filters[j]).0, FilterParts(filters[j]).1)
    {
      var (key, value) := FilterParts(filters[i]);
      var ok := EvaluateShorthandFilter(matches, key, value);
      if !ok {
        return false;
      }
      i := i + 1;
    }
    return true;
  }

  /**
   * A filter rewritten for the server: a bare word becomes a name filter;
   * a key whose head is no field of an instance is looked up in the
   * expanded config; `state=v` asks for the status.
   */
  function ServerFilter(filter: string, hasField: string -> bool): string
  {
    var membs := Strs.SplitN2(filter, '=');
    if |membs| == 1 then Cli.NameFilter(membs[0])
    else if membs[0] == "state" then "status=" + membs[1]
    else if !hasField(Cli.KeyHead(membs[0])) then "expanded_config." + filter
    else filter
  }

  /**
   * A `key=value` filter other than `state` reaches the server with the
   * same value, under the key when its head is an instance field and under
   * `expanded_config.<key>` otherwise; the filter as given ends the rewrite.
   */
  lemma PairFilterKeepsValue(key: string, value: string, hasField: string -> bool)
    requires '=' !in key && key != "state"
    ensures var f := ServerFilter(key + "=" + value, hasField);
      var given := key + "=" + value;
      |given| <= |f| && f[|f| - |given|..] == given
    ensures Strs.SplitN2(ServerFilter(key + "=" + value, hasField), '=') ==
      [if hasField(Cli.KeyHead(key)) then key else "expanded_config." + key, value]
  {
    Strs.SplitN2Concat(key, '=', value);
    if !hasField(Cli.KeyHead(key)) {
      var f := "expanded_config." + (key + "=" + value);
      assert f == ("expanded_config." + key) + "=" + value;
      assert '=' !in "expanded_config.";
      Strs.SplitN2Concat("expanded_config." + key, '=', value);
      assert f[|f| - |key + "=" + value|..] == key + "=" + value;
    } else {
      assert (key + "=" + value)[0..] == key + "=" + value;
    }
  }

  /** `state=v` asks the server for the status `v`. */
  lemma StateFilterAsksStatus(value: string, hasField: string -> bool)
    ensures Strs.SplitN2(ServerFilter("state=" + value, hasField), '=') == ["status", value]
  {
    assert "state=" + value == "state" + "=" + value;
    assert '=' !in "state";
    Strs.SplitN2Concat("state", '=', value);
    assert "status=" + value == "status" + "=" + value;
    assert '=' !in "status";
    Strs.SplitN2Concat("status", '=', value);
  }

  /**
   * A bare word asks the server for names: the word anchored at both ends
   * (or as written when it carries an anchor), or any name it begins.
   */
  lemma BareFilterIsNameFilter(word: string, hasField: string -> bool)
    requires '=' !in word
    ensures !('^' in word || '$' in word) ==>
      Strs.SplitN2(ServerFilter(word, hasField), '=') == ["name", "(^" + word + "$|^" + word + ".*)"]
    ensures ('^' in word || '$' in word) ==>
      Strs.SplitN2(ServerFilter(word, hasField), '=') == ["name", "(" + word + "|^" + word + ".*)"]
  {
    assert ServerFilter(word, hasField) == Cli.NameFilter(word);
    Cli.NameFilterAlternatives(word);
  }

  /** Rewrites one filter for the server. */
  method RewriteFilter(f: string, hasField: string -> bool) returns (filter: string)
    ensures filter == ServerFilter(f, hasField)
  {
    var membs := Strs.SplitN2(f, '=');
    filter := f;
    if |membs| == 1 {
      filter := Cli.NameFilter(membs[0]);
    } else {
      if !hasField(Cli.KeyHead(membs[0])) {
        filter := "expanded_config." + filter;
      }
      if membs[0] == "state" {
        filter := "status=" + membs[1];
      }
    }
  }

  /** Rewrites every filter, keeping their order. */
  method PrepareInstanceServerFilters(filters: seq<string>, hasField: string -> bool) returns (r: seq<string>)
    ensures |r| == |filters|
    ensures forall i :: 0 <= i < |filters| ==> r[i] == ServerFilter(filters[i], hasField)
  {
    r := [];
    var i := 0;
    while i < |filters|
      invariant 0 <= i <= |filters|
      invariant |r| == i
      invariant forall j :: 0 <= j < i ==> r[j] == ServerFilter(filters[j], hasField)
    {
      var filter := RewriteFilter(filters[i], hasField);
      r := r + [filter];
      i := i + 1;
    }
  }
}
