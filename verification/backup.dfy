/**
 * Instance backups on the server: the name a new backup gets when the
 * request names none, the checks on requested names, the full names under
 * which backups are stored, and the expiry of a new backup.
 */
module Backup {
  import opened Wrappers
  import Strs

  /** The separator between an instance's name and the name of one of its snapshots or backups. */
  const SnapshotDelimiter := '/'

  const ErrInstanceName := "Invalid instance name"
  const ErrSlash := "Backup names may not contain slashes"

  /** A snapshot (or backup) name is one holding the delimiter. */
  predicate IsSnapshot(name: string)
  {
    SnapshotDelimiter in name
  }

  /** The stored name of backup `backup` of `instance`. */
  function FullName(instance: string, backup: string): string
  {
    instance + [SnapshotDelimiter] + backup
  }

  /** A full name splits back into the instance and the backup name. */
  lemma FullNameSplits(instance: string, backup: string)
    requires !IsSnapshot(instance)
    ensures Strs.SplitN2(FullName(instance, backup), SnapshotDelimiter) == [instance, backup]
  {
    Strs.SplitN2Concat(instance, SnapshotDelimiter, backup);
  }

  // ---------------------------------------------------------------------
  // Reading a number the way fmt.Sscanf(s, "%d", &n) does
  // ---------------------------------------------------------------------

  /**
   * The characters the scanner skips before a number: Go's white space,
   * without the newline, which stops a scan with an error.
   */
  predicate IsScanSpace(c: char)
  {
    ('\t' <= c <= '\r' && c != '\n') || c == ' ' || c == '\U{85}' || c == '\U{A0}' || c == '\U{1680}' ||
    ('\U{2000}' <= c <= '\U{200A}') || c == '\U{2028}' || c == '\U{2029}' || c == '\U{202F}' ||
    c == '\U{205F}' || c == '\U{3000}'
  }

  function SkipSpace(s: string): (t: string)
    ensures |t| <= |s|
    ensures |t| > 0 ==> !IsScanSpace(t[0])
  {
    if |s| > 0 && IsScanSpace(s[0]) then SkipSpace(s[1..]) else s
  }

  /** The longest run of decimal digits at the start of `s`. */
  function LeadingDigits(s: string): (d: string)
    ensures Strs.AllDigits(d) && d <= s
    ensures |d| < |s| ==> !Strs.IsDigit(s[|d|])
  {
    if |s| > 0 && Strs.IsDigit(s[0]) then [s[0]] + LeadingDigits(s[1..]) else ""
  }

  /**
   * fmt.Sscanf(s, "%d", &n) into a 64-bit int: white space, an optional
   * sign, then at least one digit; what follows the digits is not read.
   * A value outside the int range is an error.
   */
  function ScanInt(s: string): Option<int>
  {
    var t := SkipSpace(s);
    var signed := |t| > 0 && (t[0] == '+' || t[0] == '-');
    var sign := if signed then t[..1] else "";
    var digits := LeadingDigits(if signed then t[1..] else t);
    if digits == "" then None else Strs.ParseInt(sign + digits, 64)
  }

  /** The scanner reads only values of Go's int. */
  lemma ScanIntInInt(s: string)
    ensures ScanInt(s).Some? ==> Strs.InInt(ScanInt(s).value)
  {
    Strs.Pow2Of63();
  }

  /** So are all the numbers read from backup names. */
  lemma NumbersInInt(names: seq<string>, base: string)
    ensures AllInInt(Numbers(names, base))
  {
    forall i | 0 <= i < |names| && base <= names[i] {
      ScanIntInInt(names[i][|base|..]);
    }
  }

  lemma {:induction false} LeadingDigitsOf(d: string, rest: string)
    requires Strs.AllDigits(d)
    requires rest == "" || !Strs.IsDigit(rest[0])
    ensures LeadingDigits(d + rest) == d
  {
    if |d| > 0 {
      assert (d + rest)[1..] == d[1..] + rest;
      LeadingDigitsOf(d[1..], rest);
      assert [d[0]] + d[1..] == d;
    } else {
      assert d + rest == rest;
    }
  }

  /** A rendered number followed by a non-digit is read back as that number. */
  lemma ScanRendered(n: nat, rest: string)
    requires n <= Strs.MaxInt
    requires rest == "" || !Strs.IsDigit(rest[0])
    ensures ScanInt(Strs.NatToString(n) + rest) == Some(n)
  {
    var d := Strs.NatToString(n);
    var s := d + rest;
    assert s[0] == d[0] && Strs.IsDigit(s[0]);
    DigitNotSpace(s[0]);
    LeadingDigitsOf(d, rest);
    ScanUnsigned(s, d);
    Strs.Pow2Of63();
    Strs.ParseIntOfNat(n, 64);
  }

  lemma DigitNotSpace(c: char)
    requires Strs.IsDigit(c)
    ensures !IsScanSpace(c)
  {
  }

  /** A scan of a string that starts with its digits reads them. */
  lemma ScanUnsigned(s: string, d: string)
    requires |s| > 0 && !IsScanSpace(s[0]) && Strs.IsDigit(s[0])
    requires LeadingDigits(s) == d
    ensures ScanInt(s) == Strs.ParseInt(d, 64)
  {
    assert SkipSpace(s) == s;
    assert "" + d == d;
    var t := SkipSpace(s);
    assert !(|t| > 0 && (t[0] == '+' || t[0] == '-'));
    assert LeadingDigits(t) == d;
  }

  // ---------------------------------------------------------------------
  // The default name of a new backup
  // ---------------------------------------------------------------------

  /** Backups of `instance` whose names the default numbering looks at start with this. */
  function Base(instance: string): string
  {
    FullName(instance, "backup")
  }

  /** The number a backup name carries after the base, if the scanner reads one. */
  function Number(name: string, base: string): Option<int>
  {
    if base <= name then ScanInt(name[|base|..]) else None
  }

  /** The numbers the names carry, name by name. */
  function Numbers(names: seq<string>, base: string): (nums: seq<Option<int>>)
    ensures |nums| == |names|
  {
    seq(|names|, i requires 0 <= i < |names| => Number(names[i], base))
  }

  predicate AllInInt(nums: seq<Option<int>>)
  {
    forall i :: 0 <= i < |nums| && nums[i].Some? ==> Strs.InInt(nums[i].value)
  }

  /**
   * The next backup number, in unbounded integers: one more than the
   * largest number read, and 0 when none is read that is not negative.
   */
  function NextIndex(nums: seq<Option<int>>): nat
  {
    if |nums| == 0 then 0
    else
      var m := NextIndex(nums[..|nums| - 1]);
      var num := nums[|nums| - 1];
      if num.Some? && num.value >= m then num.value + 1 else m
  }


  /** The loop as the server runs it: `max = num + 1` wraps around at the largest int. */
  function NextIndexAsWritten(nums: seq<Option<int>>): int
  {
    if |nums| == 0 then 0
    else
      var m := NextIndexAsWritten(nums[..|nums| - 1]);
      var num := nums[|nums| - 1];
      if num.Some? && num.value >= m then Strs.Inc64(num.value) else m
  }

  /** The name the server gives a backup created without one, with its wrapping counter. */
  function DefaultNameAsWritten(names: seq<string>, base: string): string
  {
    "backup" + Strs.IntToString(NextIndexAsWritten(Numbers(names, base)))
  }

  /** The name given to a backup created without one, counted without wrap-around. */
  function DefaultName(names: seq<string>, base: string): string
  {
    "backup" + Strs.NatToString(NextIndex(Numbers(names, base)))
  }

  /** Walks the existing backups once, keeping the next number. */
  method NextBackupName(instance: string, backups: seq<string>) returns (name: string)
    ensures name == DefaultName(backups, Base(instance))
  {
    var base := Base(instance);
    ghost var nums := Numbers(backups, base);
    var length := |base|;
    var max := 0;
    var i := 0;
    while i < |backups|
      invariant 0 <= i <= |backups|
      invariant max == NextIndex(nums[..i])
    {
      assert nums[..i + 1][..i] == nums[..i];
      var b := backups[i];
      assert nums[i] == Number(b, base);
      if base <= b {
        var num := ScanInt(b[length..]);
        if num.Some? && num.value >= max {
          max := num.value + 1;
        }
      }
      i := i + 1;
    }
    assert nums[..i] == nums;
    name := "backup" + Strs.NatToString(max);
  }

  /** Every number read is below the next index. */
  lemma {:induction false} NextIndexAbove(nums: seq<Option<int>>, i: nat)
    requires i < |nums| && nums[i].Some?
    ensures nums[i].value < NextIndex(nums)
  {
    var n := |nums| - 1;
    if i < n {
      var init := nums[..n];
      assert init[i] == nums[i];
      NextIndexAbove(init, i);
    }
  }

  /** The next index is the least such bound: 0, or one more than a number read. */
  lemma {:induction false} NextIndexLeast(nums: seq<Option<int>>)
    ensures NextIndex(nums) == 0 || Some(NextIndex(nums) - 1) in nums
  {
    if |nums| > 0 {
      var init := nums[..|nums| - 1];
      NextIndexLeast(init);
      assert nums == init + [nums[|nums| - 1]];
    }
  }

  /** While no number read is the largest int, the wrapping loop and the unbounded one agree. */
  lemma {:induction false} AsWrittenAgrees(nums: seq<Option<int>>)
    requires Some(Strs.MaxInt) !in nums
    ensures NextIndexAsWritten(nums) == NextIndex(nums)
  {
    if |nums| > 0 {
      var init := nums[..|nums| - 1];
      assert nums == init + [nums[|nums| - 1]];
      AsWrittenAgrees(init);
    }
  }

  /** Once the largest int is read last, the server's next number is the smallest int. */
  lemma AsWrittenWraps(nums: seq<Option<int>>)
    requires AllInInt(nums) && |nums| > 0 && nums[|nums| - 1] == Some(Strs.MaxInt)
    ensures NextIndexAsWritten(nums) == -Strs.MaxInt - 1
    ensures NextIndex(nums) == Strs.MaxInt + 1
  {
    var init := nums[..|nums| - 1];
    NextIndexAtMost(init);
    AsWrittenAtMost(init);
  }

  /** Numbers that are ints leave the wrapping loop's index an int. */
  lemma {:induction false} AsWrittenAtMost(nums: seq<Option<int>>)
    requires AllInInt(nums)
    ensures NextIndexAsWritten(nums) <= Strs.MaxInt
  {
    if |nums| > 0 {
      AsWrittenAtMost(nums[..|nums| - 1]);
    }
  }

  /** Numbers that are ints leave the next index at most one past the largest int. */
  lemma {:induction false} NextIndexAtMost(nums: seq<Option<int>>)
    requires AllInInt(nums)
    ensures NextIndex(nums) <= Strs.MaxInt + 1
  {
    if |nums| > 0 {
      NextIndexAtMost(nums[..|nums| - 1]);
    }
  }

  /**
   * A backup named with the largest int (`backup9223372036854775807`)
   * makes the server's default name for the next one
   * `backup-9223372036854775808`.
   */
  lemma WrapsAfterLargestName(instance: string, top: nat)
    requires top == Strs.MaxInt
    ensures DefaultNameAsWritten([Base(instance) + Strs.NatToString(top)], Base(instance)) ==
      "backup" + Strs.IntToString(-Strs.MaxInt - 1)
  {
    var base := Base(instance);
    var name := base + Strs.NatToString(top);
    assert name[|base|..] == Strs.NatToString(top) + "";
    ScanRendered(top, "");
    NumbersInInt([name], base);
    AsWrittenWraps(Numbers([name], base));
  }

  /** The number read from a default name is the one it was made from. */
  lemma NumberOfDefault(instance: string, n: nat)
    requires n <= Strs.MaxInt
    ensures Number(FullName(instance, "backup" + Strs.NatToString(n)), Base(instance)) == Some(n)
  {
    DefaultNameAfterBase(instance, Strs.NatToString(n));
    NumberAfterBase(Base(instance), n);
  }

  /** A default name is the numbering base followed by its digits. */
  lemma DefaultNameAfterBase(instance: string, x: string)
    ensures FullName(instance, "backup" + x) == Base(instance) + x
  {
  }

  /** Rendered digits after the base are read back as the number. */
  lemma NumberAfterBase(base: string, n: nat)
    requires n <= Strs.MaxInt
    ensures Number(base + Strs.NatToString(n), base) == Some(n)
  {
    var d := Strs.NatToString(n);
    assert (base + d)[|base|..] == d + "";
    ScanRendered(n, "");
  }

  /**
   * The unbounded default name is free: no existing backup of the instance
   * has it, as long as its number is an int.
   */
  lemma NextNameFresh(names: seq<string>, instance: string)
    requires NextIndex(Numbers(names, Base(instance))) <= Strs.MaxInt
    ensures FullName(instance, "backup" + Strs.NatToString(NextIndex(Numbers(names, Base(instance))))) !in names
  {
    var nums := Numbers(names, Base(instance));
    var n := NextIndex(nums);
    var full := FullName(instance, "backup" + Strs.NatToString(n));
    NumberOfDefault(instance, n);
    if i :| 0 <= i < |names| && names[i] == full {
      assert nums[i] == Number(full, Base(instance));
      NextIndexAbove(nums, i);
    }
  }

  // ---------------------------------------------------------------------
  // create and rename
  // ---------------------------------------------------------------------

  /** The expiry of a new backup. */
  datatype Expiry = Never | At(stamp: string)

  /** A value of the request's JSON body: a string or anything else. */
  datatype JSONValue = JString(s: string) | JOther

  /**
   * The expiry the request asks for: a missing, empty or non-string
   * `expires_at` is replaced by the zero time, which means none.
   */
  function RequestedExpiry(body: map<string, JSONValue>): (e: Expiry)
    ensures e.Never? <==> "expires_at" !in body || body["expires_at"] == JOther || body["expires_at"] == JString("")
    ensures e.At? ==> body["expires_at"] == JString(e.stamp)
  {
    var expiry := if "expires_at" in body && body["expires_at"].JString? then body["expires_at"].s else "";
    if expiry == "" then Never else At(expiry)
  }

  /**
   * The full name of a new backup of `instance`: the requested name, or the
   * default one when the request names none; refused for a snapshot
   * instance and for a name with a slash.
   */
  function CreateName(instance: string, requested: string, backups: seq<string>): Result<string>
  {
    if IsSnapshot(instance) then Err(ErrInstanceName)
    else
      var name := if requested == "" then DefaultName(backups, Base(instance)) else requested;
      if SnapshotDelimiter in name then Err(ErrSlash) else Ok(FullName(instance, name))
  }

  /**
   * Creation is refused exactly for a snapshot instance or a requested name
   * with a slash; default names never hold one, and they are new while the
   * numbers stay below the largest int.
   */
  lemma CreateNameMeaning(instance: string, requested: string, backups: seq<string>)
    ensures CreateName(instance, requested, backups).Ok? <==> !IsSnapshot(instance) && SnapshotDelimiter !in requested
    ensures CreateName(instance, requested, backups).Ok? && requested == "" &&
            NextIndex(Numbers(backups, Base(instance))) <= Strs.MaxInt ==>
              CreateName(instance, requested, backups).value !in backups
  {
    DefaultNameNoSlash(backups, Base(instance));
    if !IsSnapshot(instance) && requested == "" && NextIndex(Numbers(backups, Base(instance))) <= Strs.MaxInt {
      NextNameFresh(backups, instance);
    }
  }

  lemma DefaultNameNoSlash(names: seq<string>, base: string)
    ensures SnapshotDelimiter !in DefaultName(names, base)
  {
    NumberNameNoSlash(NextIndex(Numbers(names, base)));
  }

  /** A rendered integer holds a sign and digits only. */
  lemma NumberNameNoSlash(m: int)
    ensures SnapshotDelimiter !in "backup" + Strs.IntToString(m)
  {
    if m < 0 {
      Strs.DigitsFree(Strs.NatToString(-m), SnapshotDelimiter);
      assert Strs.IntToString(m) == "-" + Strs.NatToString(-m);
    } else {
      Strs.DigitsFree(Strs.NatToString(m), SnapshotDelimiter);
    }
  }

  /** While the next index is an int, no number read is the largest int. */
  lemma LargestNotRead(nums: seq<Option<int>>)
    requires NextIndex(nums) <= Strs.MaxInt
    ensures Some(Strs.MaxInt) !in nums
  {
    if i :| 0 <= i < |nums| && nums[i] == Some(Strs.MaxInt) {
      NextIndexAbove(nums, i);
    }
  }

  /** While the next index is an int, the server's default name is the unbounded one. */
  lemma AsWrittenNameAgrees(names: seq<string>, base: string)
    requires NextIndex(Numbers(names, base)) <= Strs.MaxInt
    ensures DefaultNameAsWritten(names, base) == DefaultName(names, base)
  {
    var nums := Numbers(names, base);
    LargestNotRead(nums);
    AsWrittenAgrees(nums);
  }

  /** The old and the new full name of a renamed backup; refused for a new name with a slash. */
  function RenameNames(instance: string, backup: string, newName: string): Result<(string, string)>
  {
    if IsSnapshot(instance) then Err(ErrInstanceName)
    else if SnapshotDelimiter in newName then Err(ErrSlash)
    else Ok((FullName(instance, backup), FullName(instance, newName)))
  }

  /** A rename stays within the instance: both names split into the instance and the backup's own name. */
  lemma RenameKeepsInstance(instance: string, backup: string, newName: string)
    requires RenameNames(instance, backup, newName).Ok?
    ensures Strs.SplitN2(RenameNames(instance, backup, newName).value.0, SnapshotDelimiter) == [instance, backup]
    ensures Strs.SplitN2(RenameNames(instance, backup, newName).value.1, SnapshotDelimiter) == [instance, newName]
    ensures SnapshotDelimiter !in newName
  {
    FullNameSplits(instance, backup);
    FullNameSplits(instance, newName);
  }
}
