/**
 * The storage-pool commands of the command-line client: the arguments of
 * `storage create`, the `-c` column flag of `storage list` and its column
 * data, the rewriting of list filters for the server, and the grouping of a
 * pool's "used by" URLs that `storage info` prints.
 */
module Storage {
  import opened Wrappers
  import Strs
  import opened Util
  import Cli

  // ---------------------------------------------------------------------
  // create
  // ---------------------------------------------------------------------

  /** The pool the client asks the server to create. */
  datatype PoolsPost = PoolsPost(name: string, driver: string, description: string, config: Config)

  const ErrDriverArgs := "Invalid number of arguments"

  /** The message for an argument without "=": Go prints the one-element slice in brackets. */
  function ErrBadPair(arg: string): string
  {
    "Bad key=value pair: [" + arg + "]"
  }

  /** The key and the value of an argument that holds an "=". */
  function PairKey(arg: string): string
  {
    Strs.SplitN2(arg, '=')[0]
  }

  function PairValue(arg: string): string
    requires '=' in arg
  {
    Strs.SplitN2(arg, '=')[1]
  }

  /** The configuration after the key=value arguments, applied in order on top of `base`. */
  function PoolConfig(base: Config, pairs: seq<string>): Result<Config>
  {
    if |pairs| == 0 then Ok(base)
    else
      var last := pairs[|pairs| - 1];
      match PoolConfig(base, pairs[..|pairs| - 1])
      case Err(m) => Err(m)
      case Ok(c) => if '=' !in last then Err(ErrBadPair(last)) else Ok(c[PairKey(last) := PairValue(last)])
  }

  /**
   * The request `storage create` sends: `name` and `driver` are its first two
   * arguments and `pairs` the rest; `stdin` is the pool read from standard
   * input (empty when that is a terminal); a non-empty `description` flag
   * replaces the description read there.
   */
  function CreateRequest(name: string, driver: string, pairs: seq<string>, stdin: PoolsPost, description: string): Result<PoolsPost>
  {
    if '=' in driver then Err(ErrDriverArgs)
    else
      var desc := if description != "" then description else stdin.description;
      match PoolConfig(stdin.config, pairs)
      case Err(m) => Err(m)
      case Ok(c) => Ok(PoolsPost(name, driver, desc, c))
  }

  /** Builds the request: rejects a driver that looks like a pair, then applies the pairs one by one. */
  method Create(name: string, driver: string, pairs: seq<string>, stdin: PoolsPost, description: string) returns (r: Result<PoolsPost>)
    ensures r == CreateRequest(name, driver, pairs, stdin, description)
  {
    if '=' in driver {
      return Err(ErrDriverArgs);
    }
    var pool := PoolsPost(name, driver, stdin.description, stdin.config);
    if description != "" {
      pool := pool.(description := description);
    }
    var i := 0;
    while i < |pairs|
      invariant 0 <= i <= |pairs|
      invariant pool.name == name && pool.driver == driver
      invariant pool.description == if description != "" then description else stdin.description
      invariant PoolConfig(stdin.config, pairs[..i]) == Ok(pool.config)
    {
      var entry := Strs.SplitN2(pairs[i], '=');
      assert pairs[..i + 1][..i] == pairs[..i];
      if |entry| < 2 {
        PoolConfigErrPrefix(stdin.config, pairs, i + 1);
        return Err(ErrBadPair(pairs[i]));
      }
      pool := pool.(config := pool.config[entry[0] := entry[1]]);
      i := i + 1;
    }
    assert pairs[..i] == pairs;
    return Ok(pool);
  }

  /** Once a prefix of the pairs is refused, so is the whole list, with the same error. */
  lemma {:induction false} PoolConfigErrPrefix(base: Config, pairs: seq<string>, n: nat)
    requires n <= |pairs| && PoolConfig(base, pairs[..n]).Err?
    ensures PoolConfig(base, pairs) == PoolConfig(base, pairs[..n])
    decreases |pairs| - n
  {
    if n < |pairs| {
      var init := pairs[..|pairs| - 1];
      assert init[..n] == pairs[..n];
      PoolConfigErrPrefix(base, init, n);
    } else {
      assert pairs[..n] == pairs;
    }
  }

  /** The request is built exactly when the driver holds no "=" and every later argument holds one. */
  lemma CreateOkIff(name: string, driver: string, pairs: seq<string>, stdin: PoolsPost, description: string)
    ensures CreateRequest(name, driver, pairs, stdin, description).Ok? <==>
      '=' !in driver && forall i :: 0 <= i < |pairs| ==> '=' in pairs[i]
  {
    PoolConfigOkIff(stdin.config, pairs);
  }

  lemma {:induction false} PoolConfigOkIff(base: Config, pairs: seq<string>)
    ensures PoolConfig(base, pairs).Ok? <==> forall i :: 0 <= i < |pairs| ==> '=' in pairs[i]
  {
    if |pairs| > 0 {
      var init := pairs[..|pairs| - 1];
      PoolConfigOkIff(base, init);
      assert pairs == init + [pairs[|pairs| - 1]];
    }
  }

  /** A refusal names the first argument without an "=". */
  lemma {:induction false} PoolConfigFirstBad(base: Config, pairs: seq<string>)
    requires PoolConfig(base, pairs).Err?
    ensures exists i :: 0 <= i < |pairs| && '=' !in pairs[i] && (forall j :: 0 <= j < i ==> '=' in pairs[j]) &&
                        PoolConfig(base, pairs).msg == ErrBadPair(pairs[i])
  {
    var n := |pairs| - 1;
    var init := pairs[..n];
    if PoolConfig(base, init).Err? {
      PoolConfigFirstBad(base, init);
      var i :| 0 <= i < |init| && '=' !in init[i] && (forall j :: 0 <= j < i ==> '=' in init[j]) &&
                PoolConfig(base, init).msg == ErrBadPair(init[i]);
      assert init[i] == pairs[i];
      assert forall j :: 0 <= j < i ==> init[j] == pairs[j];
    } else {
      PoolConfigOkIff(base, init);
      assert forall j :: 0 <= j < n ==> init[j] == pairs[j];
    }
  }

  /**
   * An accepted list of pairs sets the key of each pair to the value of the
   * last pair with that key; keys no pair names keep their value in `base`.
   */
  lemma {:induction false} PoolConfigLastWins(base: Config, pairs: seq<string>, i: nat)
    requires PoolConfig(base, pairs).Ok? && i < |pairs|
    requires forall j :: i < j < |pairs| ==> PairKey(pairs[j]) != PairKey(pairs[i])
    ensures '=' in pairs[i] && PairKey(pairs[i]) in PoolConfig(base, pairs).value
    ensures PoolConfig(base, pairs).value[PairKey(pairs[i])] == PairValue(pairs[i])
  {
    var n := |pairs| - 1;
    var init := pairs[..n];
    if i < n {
      assert init[i] == pairs[i];
      assert forall j :: i < j < n ==> init[j] == pairs[j];
      PoolConfigLastWins(base, init, i);
    }
  }

  lemma {:induction false} PoolConfigKeepsBase(base: Config, pairs: seq<string>, k: string)
    requires PoolConfig(base, pairs).Ok? && k in base
    requires forall j :: 0 <= j < |pairs| ==> PairKey(pairs[j]) != k
    ensures k in PoolConfig(base, pairs).value
    ensures PoolConfig(base, pairs).value[k] == base[k]
  {
    if |pairs| > 0 {
      var init := pairs[..|pairs| - 1];
      assert forall j :: 0 <= j < |init| ==> init[j] == pairs[j];
      PoolConfigKeepsBase(base, init, k);
    }
  }

  // ---------------------------------------------------------------------
  // list: columns
  // ---------------------------------------------------------------------

  datatype Column = Name | Driver | Description | Source | UsedBy | State

  /** The one-letter shorthands of `storage list -c`. */
  const Shorthands: map<char, Column> := map['n' := Name, 'D' := Driver, 'd' := Description, 'S' := Source, 'u' := UsedBy, 's' := State]

  const DefaultColumns := "nDdus"

  /** Every letter of `s` is a shorthand. */
  predicate Known(s: string)
  {
    forall i :: 0 <= i < |s| ==> s[i] in Shorthands
  }

  /** The columns named by a string of known shorthands, letter by letter. */
  function Lookup(s: string): (cs: seq<Column>)
    requires Known(s)
  {
    seq(|s|, i requires 0 <= i < |s| => Shorthands[s[i]])
  }

  /** One comma-separated entry: it must be non-empty and every letter a known shorthand. */
  function EntryColumns(entry: string, flag: string): Result<seq<Column>>
  {
    if entry == "" then Err(Cli.ErrEmptyEntry(flag))
    else
      match Cli.ShorthandRunes(entry, Shorthands.Keys)
      case Err(m) => Err(m)
      case Ok(rs) => Ok(Lookup(rs))
  }

  /** The entries in order, stopping at the first refused one. */
  function EntriesColumns(entries: seq<string>, flag: string): Result<seq<Column>>
  {
    if |entries| == 0 then Ok([])
    else
      match EntriesColumns(entries[..|entries| - 1], flag)
      case Err(m) => Err(m)
      case Ok(cs) =>
        match EntryColumns(entries[|entries| - 1], flag)
        case Err(m) => Err(m)
        case Ok(more) => Ok(cs + more)
  }

  function ColumnsOf(flag: string): Result<seq<Column>>
  {
    EntriesColumns(Strs.Split(flag, ','), flag)
  }

  /** Splits the flag at commas and looks each entry's letters up in turn. */
  method ParseColumns(flag: string) returns (r: Result<seq<Column>>)
    ensures r == ColumnsOf(flag)
  {
    var entries := Strs.Split(flag, ',');
    var columns: seq<Column> := [];
    var i := 0;
    while i < |entries|
      invariant 0 <= i <= |entries|
      invariant EntriesColumns(entries[..i], flag) == Ok(columns)
    {
      assert entries[..i + 1][..i] == entries[..i];
      if entries[i] == "" {
        EntriesColumnsErrPrefix(entries, flag, i + 1);
        return Err(Cli.ErrEmptyEntry(flag));
      }
      var runes := Cli.ScanShorthands(entries[i], Shorthands.Keys);
      if runes.Err? {
        EntriesColumnsErrPrefix(entries, flag, i + 1);
        return Err(runes.msg);
      }
      columns := columns + Lookup(runes.value);
      i := i + 1;
    }
    assert entries[..i] == entries;
    return Ok(columns);
  }

  lemma {:induction false} EntriesColumnsErrPrefix(entries: seq<string>, flag: string, n: nat)
    requires n <= |entries| && EntriesColumns(entries[..n], flag).Err?
    ensures EntriesColumns(entries, flag) == EntriesColumns(entries[..n], flag)
    decreases |entries| - n
  {
    if n < |entries| {
      var init := entries[..|entries| - 1];
      assert init[..n] == entries[..n];
      EntriesColumnsErrPrefix(init, flag, n);
    } else {
      assert entries[..n] == entries;
    }
  }

  /**
   * The entries are accepted exactly when none is empty and every letter of
   * them is a known shorthand, and then the columns are their letters in order.
   */
  lemma {:induction false} EntriesMeaning(entries: seq<string>, flag: string)
    ensures EntriesColumns(entries, flag).Ok? <==>
      (forall i :: 0 <= i < |entries| ==> entries[i] != "") && Known(Strs.Concat(entries))
    ensures EntriesColumns(entries, flag).Ok? ==>
      Known(Strs.Concat(entries)) && EntriesColumns(entries, flag).value == Lookup(Strs.Concat(entries))
  {
    if |entries| > 0 {
      var n := |entries| - 1;
      var init := entries[..n];
      var last := entries[n];
      EntriesMeaning(init, flag);
      var a := Strs.Concat(init);
      assert Strs.Concat(entries) == a + last;
      assert forall i :: 0 <= i < n ==> init[i] == entries[i];
      KnownAppend(a, last);
      if Known(a + last) {
        LookupAppend(a, last);
      }
    }
  }

  /** The letters of a concatenation are known exactly when those of both halves are. */
  lemma KnownAppend(a: string, b: string)
    ensures Known(a + b) <==> Known(a) && Known(b)
  {
    var ab := a + b;
    if Known(ab) {
      forall k | 0 <= k < |a| ensures a[k] in Shorthands {
        assert ab[k] == a[k];
      }
      forall k | 0 <= k < |b| ensures b[k] in Shorthands {
        assert ab[|a| + k] == b[k];
      }
    }
    if Known(a) && Known(b) {
      forall k | 0 <= k < |ab| ensures ab[k] in Shorthands {
        if k >= |a| {
          assert ab[k] == b[k - |a|];
        }
      }
    }
  }

  /** A concatenation is looked up half by half. */
  lemma LookupAppend(a: string, b: string)
    requires Known(a) && Known(b) && Known(a + b)
    ensures Lookup(a + b) == Lookup(a) + Lookup(b)
  {
    var ab := a + b;
    forall k | 0 <= k < |ab| ensures Lookup(ab)[k] == (Lookup(a) + Lookup(b))[k] {
      if k >= |a| {
        assert ab[k] == b[k - |a|];
      }
    }
  }

  /**
   * The column flag is accepted exactly when it has no empty entry and every
   * letter besides the commas is a shorthand; the columns are then those
   * letters, in the order written.
   */
  lemma ColumnsMeaning(flag: string)
    ensures ColumnsOf(flag).Ok? <==>
      (forall i :: 0 <= i < |Strs.Split(flag, ',')| ==> Strs.Split(flag, ',')[i] != "") && Known(Strs.RemoveChar(flag, ','))
    ensures ColumnsOf(flag).Ok? ==>
      Known(Strs.RemoveChar(flag, ',')) && ColumnsOf(flag).value == Lookup(Strs.RemoveChar(flag, ','))
  {
    EntriesMeaning(Strs.Split(flag, ','), flag);
    Strs.ConcatSplit(flag, ',');
  }

  /** The default layout: name, driver, description, used by, state. */
  lemma DefaultColumnsList()
    ensures ColumnsOf(DefaultColumns) == Ok([Name, Driver, Description, UsedBy, State])
  {
    var d := DefaultColumns;
    Strs.SplitNoSep(d, ',');
    assert [d][..0] == [];
    assert Known(d);
    assert Cli.ShorthandRunes(d, Shorthands.Keys) == Ok(d);
    assert EntryColumns(d, d) == Ok(Lookup(d));
    assert EntriesColumns([d], d) == Ok([] + Lookup(d));
    assert Lookup(d) == [Name, Driver, Description, UsedBy, State];
    assert [] + Lookup(d) == Lookup(d);
    assert ColumnsOf(d) == EntriesColumns([d], d);
  }

  /** A pool as the server lists it. */
  datatype StoragePool = StoragePool(name: string, driver: string, description: string, config: Config,
                                     usedBy: seq<string>, status: string)

  function Header(c: Column): string
  {
    match c
    case Name => "NAME"
    case Driver => "DRIVER"
    case Description => "DESCRIPTION"
    case Source => "SOURCE"
    case UsedBy => "USED BY"
    case State => "STATE"
  }

  /** The cell of a column for one pool. */
  function ColumnData(c: Column, p: StoragePool): (cell: string)
    ensures c == Source ==> cell == Get(p.config, "source")
    ensures c == UsedBy ==> Strs.IsDecimal(cell) && Strs.DecimalValue(cell) == |p.usedBy|
    ensures c == State ==> |cell| == |p.status| && forall i :: 0 <= i < |cell| ==> cell[i] == Strs.UpperChar(p.status[i])
  {
    match c
    case Name => p.name
    case Driver => p.driver
    case Description => p.description
    case Source => Get(p.config, "source")
    case UsedBy => Strs.NatToString(|p.usedBy|)
    case State => Strs.ToUpper(p.status)
  }

  // ---------------------------------------------------------------------
  // list: server filters
  // ---------------------------------------------------------------------

  /**
   * A filter rewritten for the server: a bare word selects by name; a key
   * whose head is no field of a pool is looked up in the pool's config.
   */
  function ServerFilter(filter: string, hasField: string -> bool): string
  {
    var membs := Strs.SplitN2(filter, '=');
    if |membs| == 1 then Cli.NameFilter(membs[0])
    else if !hasField(Cli.KeyHead(membs[0])) then "config." + filter
    else filter
  }

  /** Rewrites every filter, keeping their order. */
  method PrepareServerFilters(filters: seq<string>, hasField: string -> bool) returns (r: seq<string>)
    ensures |r| == |filters|
    ensures forall i :: 0 <= i < |filters| ==> r[i] == ServerFilter(filters[i], hasField)
  {
    r := [];
    var i := 0;
    while i < |filters|
      invariant 0 <= i <= |filters|
      invariant |r| == i
      invariant forall j :: 0 <= j < i ==> r[j] == ServerFilter(filters[j], hasField)
    {
      var filter := filters[i];
      var membs := Strs.SplitN2(filter, '=');
      if |membs| == 1 {
        filter := Cli.NameFilter(membs[0]);
      } else if !hasField(Cli.KeyHead(membs[0])) {
        filter := "config." + filter;
      }
      r := r + [filter];
      i := i + 1;
    }
  }

  /**
   * A key=value filter reaches the server with the same value, under the
   * same key when its head is a pool field and under `config.` otherwise.
   */
  lemma PairFilterKeepsValue(key: string, value: string, hasField: string -> bool)
    requires '=' !in key
    ensures Strs.SplitN2(ServerFilter(key + "=" + value, hasField), '=') ==
      [if hasField(Cli.KeyHead(key)) then key else "config." + key, value]
  {
    Strs.SplitN2Concat(key, '=', value);
    if !hasField(Cli.KeyHead(key)) {
      assert "config." + (key + "=" + value) == ("config." + key) + "=" + value;
      assert '=' !in "config.";
      Strs.SplitN2Concat("config." + key, '=', value);
    }
  }

  // ---------------------------------------------------------------------
  // info: used-by
  // ---------------------------------------------------------------------

  /** What the client reads of a used-by URL: its path and its `project` and `target` query values. */
  datatype UsedByURL = UsedByURL(path: string, project: string, target: string)

  /**
   * The entity type and name a used-by path stands for, or None for a
   * snapshot (its parent is listed on its own). Paths of a single segment
   * after `/1.0/` are "unrecognized" and keep the whole path as name;
   * entities under a storage pool take their type and name from the third
   * and fourth segments, and a volume its name from the fifth.
   */
  function Classify(path: string): Option<(string, string)>
  {
    var fields := Strs.Split(Strs.TrimPrefix(path, "/1.0/"), '/');
    var n := |fields|;
    if n <= 1 then Some(("unrecognized", path))
    else if fields[n - 2] == "snapshots" then None
    else if fields[0] == "storage-pools" && n > 3 then
      Some((fields[2], if fields[2] == "volumes" && n > 4 then fields[4] else fields[3]))
    else Some((fields[0], fields[1]))
  }

  /** Go's %q for strings without characters that need escaping. */
  function Quoted(s: string): string
  {
    "\"" + s + "\""
  }

  /** The attributes written after an entity's name, in order. */
  function Attribs(project: string, target: string): seq<string>
  {
    (if project != "" then ["project " + Quoted(project)] else []) +
    (if target != "" then ["location " + Quoted(target)] else [])
  }

  /** The attributes separated by ", ". */
  function Listing(attribs: seq<string>): string
  {
    if |attribs| == 0 then ""
    else if |attribs| == 1 then attribs[0]
    else Listing(attribs[..|attribs| - 1]) + ", " + attribs[|attribs| - 1]
  }

  /** The suffix after a name: nothing without project and location, else both in parentheses. */
  function Suffix(project: string, target: string): (s: string)
  {
    if project == "" && target == "" then ""
    else " (" + Listing(Attribs(project, target)) + ")"
  }

  /** The four shapes of the suffix. */
  lemma SuffixCases(project: string, target: string)
    ensures project == "" && target == "" ==> Suffix(project, target) == ""
    ensures project != "" && target == "" ==> Suffix(project, target) == " (" + "project " + Quoted(project) + ")"
    ensures project == "" && target != "" ==> Suffix(project, target) == " (" + "location " + Quoted(target) + ")"
    ensures project != "" && target != "" ==>
      Suffix(project, target) == " (" + ("project " + Quoted(project) + ", " + "location " + Quoted(target)) + ")"
  {
    if project != "" && target != "" {
      SuffixBoth(project, target);
    }
  }

  /** With both a project and a location, they are listed in that order. */
  lemma SuffixBoth(project: string, target: string)
    requires project != "" && target != ""
    ensures Suffix(project, target) == " (" + ("project " + Quoted(project) + ", " + "location " + Quoted(target)) + ")"
  {
    var a := Attribs(project, target);
    var p, l := "project " + Quoted(project), "location " + Quoted(target);
    assert a == [p, l];
    ListingStep(a, 1);
    assert a[..2] == a;
    assert Listing(a) == p + ", " + l;
  }

  /** Listing one more attribute adds it, after ", " unless it is the first. */
  lemma ListingStep(attribs: seq<string>, i: nat)
    requires i < |attribs|
    ensures Listing(attribs[..i + 1]) == if i == 0 then attribs[0] else Listing(attribs[..i]) + ", " + attribs[i]
  {
    assert attribs[..i + 1][..i] == attribs[..i];
  }

  /** Writes the name, then the attributes in parentheses, separated by ", ". */
  method EntryText(name: string, project: string, target: string) returns (s: string)
    ensures s == name + Suffix(project, target)
  {
    var attribs: seq<string> := [];
    if project != "" {
      attribs := attribs + ["project " + Quoted(project)];
    }
    if target != "" {
      attribs := attribs + ["location " + Quoted(target)];
    }
    assert attribs == Attribs(project, target);
    assert |attribs| > 0 <==> project != "" || target != "";
    s := name;
    if |attribs| > 0 {
      var listed := "";
      var i := 0;
      while i < |attribs|
        invariant 0 <= i <= |attribs|
        invariant listed == Listing(attribs[..i])
      {
        if i > 0 {
          listed := listed + ", ";
        }
        listed := listed + attribs[i];
        ListingStep(attribs, i);
        i := i + 1;
      }
      assert attribs[..i] == attribs;
      s := s + " (" + listed + ")";
      assert s == name + (" (" + Listing(attribs) + ")");
    }
  }

  /** The entry a used-by URL adds, with its type; None for a snapshot. */
  function Entry(u: UsedByURL): Option<(string, string)>
  {
    match Classify(u.path)
    case None => None
    case Some((t, name)) => Some((t, name + Suffix(u.project, u.target)))
  }

  /** The used-by entries grouped by type, each group in the order of the URLs. */
  function UsedByMap(urls: seq<string>, parse: string -> Option<UsedByURL>): map<string, seq<string>>
  {
    if |urls| == 0 then map[]
    else
      var m := UsedByMap(urls[..|urls| - 1], parse);
      match parse(urls[|urls| - 1])
      case None => m
      case Some(u) =>
        match Entry(u)
        case None => m
        case Some((t, s)) => m[t := (if t in m then m[t] else []) + [s]]
  }

  /** Walks the URLs once, skipping those that do not parse and the snapshots. */
  method BuildUsedBy(urls: seq<string>, parse: string -> Option<UsedByURL>) returns (m: map<string, seq<string>>)
    ensures m == UsedByMap(urls, parse)
  {
    m := map[];
    var i := 0;
    while i < |urls|
      invariant 0 <= i <= |urls|
      invariant m == UsedByMap(urls[..i], parse)
    {
      assert urls[..i + 1][..i] == urls[..i];
      var u := parse(urls[i]);
      if u.Some? {
        var fields := Strs.Split(Strs.TrimPrefix(u.value.path, "/1.0/"), '/');
        var n := |fields|;
        var entityType := "unrecognized";
        var entityName := u.value.path;
        var skip := false;
        if n > 1 {
          entityType := fields[0];
          entityName := fields[1];
          if fields[n - 2] == "snapshots" {
            skip := true;
          } else if fields[0] == "storage-pools" && n > 3 {
            entityType := fields[2];
            entityName := fields[3];
            if entityType == "volumes" && n > 4 {
              entityName := fields[4];
            }
          }
        }
        if !skip {
          assert Classify(u.value.path) == Some((entityType, entityName));
          var text := EntryText(entityName, u.value.project, u.value.target);
          m := m[entityType := (if entityType in m then m[entityType] else []) + [text]];
        }
      }
      i := i + 1;
    }
    assert urls[..i] == urls;
  }

  /** The listed entries, in order, as (type, text) pairs: the reference the map is grouped from. */
  function Listed(urls: seq<string>, parse: string -> Option<UsedByURL>): seq<(string, string)>
  {
    if |urls| == 0 then []
    else
      var init := Listed(urls[..|urls| - 1], parse);
      match parse(urls[|urls| - 1])
      case None => init
      case Some(u) => if Entry(u).Some? then init + [Entry(u).value] else init
  }

  /** The texts of the entries of type `t`, in order. */
  function OfType(entries: seq<(string, string)>, t: string): seq<string>
  {
    if |entries| == 0 then []
    else
      var init := OfType(entries[..|entries| - 1], t);
      if entries[|entries| - 1].0 == t then init + [entries[|entries| - 1].1] else init
  }

  /**
   * The map holds a type exactly when some listed entry has it, and its
   * group is the texts of that type in the order of the URLs.
   */
  lemma {:induction false} UsedByGroups(urls: seq<string>, parse: string -> Option<UsedByURL>, t: string)
    ensures t in UsedByMap(urls, parse) <==> OfType(Listed(urls, parse), t) != []
    ensures t in UsedByMap(urls, parse) ==> UsedByMap(urls, parse)[t] == OfType(Listed(urls, parse), t)
  {
    if |urls| > 0 {
      var init := urls[..|urls| - 1];
      UsedByGroups(init, parse, t);
      var l := Listed(init, parse);
      var u := parse(urls[|urls| - 1]);
      if u.Some? && Entry(u.value).Some? {
        var e := Entry(u.value).value;
        assert Listed(urls, parse) == l + [e];
        assert (l + [e])[..|l|] == l;
      }
    }
  }

  // Shapes of used-by paths

  /** The API path of the given segments: `/1.0/` and the segments joined by slashes. */
  function APIPath(segments: seq<string>): string
  {
    "/1.0/" + Strs.Join(segments, '/')
  }

  /** Classify, given the segments of the path. */
  lemma ClassifyOfFields(segments: seq<string>)
    requires |segments| >= 1 && forall i :: 0 <= i < |segments| ==> '/' !in segments[i]
    ensures |segments| > 1 && segments[|segments| - 2] == "snapshots" ==> Classify(APIPath(segments)) == None
    ensures |segments| == 2 && segments[0] != "snapshots" ==> Classify(APIPath(segments)) == Some((segments[0], segments[1]))
    ensures |segments| == 4 && segments[2] != "snapshots" && segments[0] == "storage-pools" ==>
      Classify(APIPath(segments)) == Some((segments[2], segments[3]))
    ensures |segments| == 5 && segments[3] != "snapshots" && segments[0] == "storage-pools" && segments[2] == "volumes" ==>
      Classify(APIPath(segments)) == Some(("volumes", segments[4]))
  {
    var x := Strs.Join(segments, '/');
    assert ("/1.0/" + x)[5..] == x;
    Strs.SplitJoin(segments, '/');
  }

  /** A path of a single segment is "unrecognized" and named by the whole path. */
  lemma ClassifyOneSegment(path: string)
    requires '/' !in Strs.TrimPrefix(path, "/1.0/")
    ensures Classify(path) == Some(("unrecognized", path))
  {
    Strs.SplitNoSep(Strs.TrimPrefix(path, "/1.0/"), '/');
  }

  /** `/1.0/<type>/<name>` is an entity of that type and name. */
  lemma ClassifyEntity(t: string, name: string)
    requires '/' !in t && '/' !in name && t != "snapshots"
    ensures Classify(APIPath([t, name])) == Some((t, name))
  {
    ClassifyOfFields([t, name]);
  }

  /** `/1.0/<type>/<name>/snapshots/<snap>` is skipped. */
  lemma ClassifySnapshot(t: string, name: string, snap: string)
    requires '/' !in t && '/' !in name && '/' !in snap
    ensures Classify(APIPath([t, name, "snapshots", snap])) == None
  {
    ClassifyOfFields([t, name, "snapshots", snap]);
  }

  /** `/1.0/storage-pools/<pool>/<kind>/<name>` is an entity of that kind named `<name>`. */
  lemma ClassifyPoolEntity(pool: string, kind: string, name: string)
    requires '/' !in pool && '/' !in kind && '/' !in name && kind != "snapshots"
    ensures Classify(APIPath(["storage-pools", pool, kind, name])) == Some((kind, name))
  {
    ClassifyOfFields(["storage-pools", pool, kind, name]);
  }

  /** `/1.0/storage-pools/<pool>/volumes/<type>/<name>` is a volume named by its last segment. */
  lemma ClassifyVolume(pool: string, vtype: string, name: string)
    requires '/' !in pool && '/' !in vtype && '/' !in name && vtype != "snapshots"
    ensures Classify(APIPath(["storage-pools", pool, "volumes", vtype, name])) == Some(("volumes", name))
  {
    ClassifyOfFields(["storage-pools", pool, "volumes", vtype, name]);
  }
}
