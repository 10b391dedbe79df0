/**
 The rules checked before a run: no duplicate numbers, no gaps, nothing unapplied
 below an applied migration, and no applied file edited since.
 */
module SequenceRules {
  import opened Wrappers
  import opened MigrationFiles

  datatype Record = Record(checksum: Option<string>, elapsedMs: Option<nat>)

  datatype Verdict = Valid | DuplicateNumbers | MissingNumbers | OutOfOrder | ChecksumMismatch

  function Names(files: seq<string>): set<string> {
    set f | f in files
  }

  predicate NoDuplicates(files: seq<string>) {
    forall i, j :: 0 <= i < j < |files| && ExtractSequenceNumber(files[i]).Some?
      ==> ExtractSequenceNumber(files[i]) != ExtractSequenceNumber(files[j])
  }

  predicate FullyNumbered(files: seq<string>) {
    forall f :: f in files ==> ExtractSequenceNumber(f).Some?
  }

  function Carrying(files: seq<string>, n: nat): seq<string> {
    if files == [] then []
    else Carrying(files[..|files| - 1], n)
         + if ExtractSequenceNumber(files[|files| - 1]) == Some(n) then [files[|files| - 1]] else []
  }

  /** The dictionary of numbers carried by more than one file, with those files. */
  method CheckDuplicates(files: seq<string>) returns (duplicates: map<nat, seq<string>>)
    ensures forall n :: n in duplicates <==> |Carrying(files, n)| > 1
    ensures forall n :: n in duplicates ==> duplicates[n] == Carrying(files, n)
    ensures duplicates == map[] <==> NoDuplicates(files)
  {
    var seqMap: map<nat, seq<string>> := map[];
    for k := 0 to |files|
      invariant forall n :: n in seqMap <==> Carrying(files[..k], n) != []
      invariant forall n :: n in seqMap ==> seqMap[n] == Carrying(files[..k], n)
    {
      assert files[..k + 1][..k] == files[..k];
      match ExtractSequenceNumber(files[k])
      case Some(n) => seqMap := seqMap[n := (if n in seqMap then seqMap[n] else []) + [files[k]]];
      case None =>
    }
    assert files[..|files|] == files;
    duplicates := map n | n in seqMap && |seqMap[n]| > 1 :: seqMap[n];
    DuplicatesAreShared(files);
    if duplicates != map[] {
      var n :| n in duplicates;
    }
  }

  lemma {:induction false} CarryingCounts(files: seq<string>, n: nat)
    ensures Carrying(files, n) == [] <==> forall i :: 0 <= i < |files| ==> ExtractSequenceNumber(files[i]) != Some(n)
    ensures |Carrying(files, n)| > 1 <==>
      exists i, j ::
        0 <= i < j < |files| && ExtractSequenceNumber(files[i]) == ExtractSequenceNumber(files[j]) == Some(n)
  {
    hide ExtractSequenceNumber;
    if files != [] {
      var k := |files| - 1;
      CarryingCounts(files[..k], n);
      if |Carrying(files, n)| > 1 && Carrying(files[..k], n) != [] && ExtractSequenceNumber(files[k]) == Some(n) {
        var i :| 0 <= i < k && ExtractSequenceNumber(files[..k][i]) == Some(n);
        assert files[i] == files[..k][i];
      } else if |Carrying(files, n)| > 1 {
        var i, j :| 0 <= i < j < k && ExtractSequenceNumber(files[..k][i]) == Some(n)
          && ExtractSequenceNumber(files[..k][j]) == Some(n);
        assert files[i] == files[..k][i] && files[j] == files[..k][j];
      }
      if i, j :| 0 <= i < j < |files| && ExtractSequenceNumber(files[i]) == ExtractSequenceNumber(files[j]) == Some(n) {
        assert files[..k][i] == files[i];
        if j < k { assert files[..k][j] == files[j]; }
      }
    }
  }

  lemma DuplicatesAreShared(files: seq<string>)
    ensures NoDuplicates(files) <==> forall n: nat :: |Carrying(files, n)| <= 1
  {
    forall n: nat { CarryingCounts(files, n); }
    if !NoDuplicates(files) {
      var i, j :| 0 <= i < j < |files| && ExtractSequenceNumber(files[i]).Some?
        && ExtractSequenceNumber(files[i]) == ExtractSequenceNumber(files[j]);
      assert |Carrying(files, ExtractSequenceNumber(files[i]).value)| > 1;
    }
  }

  function Numbers(files: seq<string>): (ns: seq<nat>)
    requires FullyNumbered(files)
    ensures |ns| == |files| && forall i :: 0 <= i < |ns| ==> Some(ns[i]) == ExtractSequenceNumber(files[i])
  {
    if files == [] then [] else [ExtractSequenceNumber(files[0]).value] + Numbers(files[1..])
  }

  function Min(ns: seq<nat>): (m: nat)
    requires ns != []
    ensures m in ns && forall n :: n in ns ==> m <= n
  {
    if |ns| == 1 then ns[0]
    else
      assert ns == [ns[0]] + ns[1..];
      var m := Min(ns[1..]); if ns[0] <= m then ns[0] else m
  }

  function Max(ns: seq<nat>): (m: nat)
    requires ns != []
    ensures m in ns && forall n :: n in ns ==> n <= m
  {
    if |ns| == 1 then ns[0]
    else
      assert ns == [ns[0]] + ns[1..];
      var m := Max(ns[1..]); if m <= ns[0] then ns[0] else m
  }

  /** _check_sequence_gaps: the numbers it reports as missing. */
  function Missing(files: seq<string>): set<nat> {
    if files == [] || !FullyNumbered(files) then {}
    else
      var ns := Numbers(files);
      set n: nat | Min(ns) <= n <= Max(ns) && n !in ns
  }

  predicate InOrder(files: seq<string>, applied: set<string>) {
    forall f :: f in files ==> !Precedes(f, applied)
  }

  /** f is unapplied although a migration with a greater number is applied. */
  predicate Precedes(f: string, applied: set<string>) {
    f !in applied && ExtractSequenceNumber(f).Some?
    && exists g :: g in applied && ExtractSequenceNumber(g).Some?
         && ExtractSequenceNumber(f).value < ExtractSequenceNumber(g).value
  }

  predicate FirstOffender(files: seq<string>, applied: set<string>, f: string) {
    exists i :: (0 <= i < |files| && files[i] == f && Precedes(f, applied)
      && forall j :: 0 <= j < i ==> !Precedes(files[j], applied))
  }

  /** _check_out_of_order_execution, over the applied versions as the table lists them. */
  method CheckOutOfOrder(files: seq<string>, applied: seq<string>) returns (offender: Option<string>)
    ensures offender.None? <==> InOrder(files, Names(applied))
    ensures offender.Some? ==> FirstOffender(files, Names(applied), offender.value)
  {
    ghost var versions := Names(applied);
    var maxApplied: Option<nat> := None;
    for k := 0 to |applied|
      invariant forall i :: 0 <= i < k ==> match ExtractSequenceNumber(applied[i])
        case Some(n) => maxApplied.Some? && n <= maxApplied.value case None => true
      invariant maxApplied.Some? ==> exists i :: 0 <= i < k && ExtractSequenceNumber(applied[i]) == maxApplied
    {
      match ExtractSequenceNumber(applied[k])
      case Some(n) => if maxApplied.None? || n > maxApplied.value {
        maxApplied := Some(n);
        assert ExtractSequenceNumber(applied[k]) == maxApplied;
      }
      case None =>
    }
    if maxApplied.None? {
      return None;
    }
    var top :| 0 <= top < |applied| && ExtractSequenceNumber(applied[top]) == maxApplied;
    for k := 0 to |files|
      invariant forall i :: 0 <= i < k ==> !Precedes(files[i], versions)
    {
      var f := files[k];
      if f !in applied {
        var n := ExtractSequenceNumber(f);
        if n.Some? && n.value < maxApplied.value {
          assert applied[top] in versions && f in files;
          assert Precedes(f, versions);
          return Some(f);
        }
      }
    }
    return None;
  }

  predicate ChecksumsMatch(records: map<string, Record>, content: map<string, string>, hash: string -> string) {
    forall v :: v in records && v in content ==> ChecksumMatches(records[v], content[v], hash)
  }

  /** A record without a checksum is not compared. */
  predicate ChecksumMatches(record: Record, text: string, hash: string -> string) {
    record.checksum.Some? && record.checksum.value != "" ==> hash(text) == record.checksum.value
  }

  /** validate_migration_sequence: the first rule broken, in the order duplicates, gaps, order, checksums. */
  function Validation(files: seq<string>, records: map<string, Record>, content: map<string, string>,
          hash: string -> string): Verdict {
    if !NoDuplicates(files) then DuplicateNumbers
    else if Missing(files) != {} then MissingNumbers
    else if !InOrder(files, records.Keys) then OutOfOrder
    else if !ChecksumsMatch(records, content, hash) then ChecksumMismatch
    else Valid
  }

  /* ----- what the sequence rules mean ----- */

  predicate Consecutive(files: seq<string>) {
    FullyNumbered(files)
    && forall i :: 0 <= i < |files| ==>
       ExtractSequenceNumber(files[i]).value == ExtractSequenceNumber(files[0]).value + i
  }

  function Prefix(files: seq<string>, k: nat): set<string>
    requires k <= |files|
  {
    Names(files[..k])
  }

  lemma SortedByNumber(files: seq<string>, i: nat, j: nat)
    requires Sorted(files) && FullyNumbered(files) && i <= j < |files|
    ensures ExtractSequenceNumber(files[i]).value <= ExtractSequenceNumber(files[j]).value
  {
    if i < j { assert FileLeq(files[i], files[j]); }
  }

  lemma NothingBetweenNeighbours(files: seq<string>, i: nat)
    requires Sorted(files) && FullyNumbered(files) && Missing(files) == {}
    requires 0 < i < |files|
    ensures Numbers(files)[i] <= Numbers(files)[i - 1] + 1
  {
    hide ExtractSequenceNumber, Sorted, Numbers;
    var ns := Numbers(files);
    var next := ns[i - 1] + 1;
    if next < ns[i] {
      assert ns[i - 1] in ns && ns[i] in ns;
      assert Min(ns) <= next <= Max(ns);
      assert next !in Missing(files);
      var k :| 0 <= k < |ns| && ns[k] == next;
      if k < i { SortedByNumber(files, k, i - 1); } else { SortedByNumber(files, i, k); }
    }
  }

  lemma {:induction false} NoGapsMeansConsecutive(files: seq<string>, i: nat)
    requires Sorted(files) && FullyNumbered(files) && NoDuplicates(files) && Missing(files) == {}
    requires i < |files|
    ensures ExtractSequenceNumber(files[i]).value == ExtractSequenceNumber(files[0]).value + i
  {
    if i > 0 {
      NoGapsMeansConsecutive(files, i - 1);
      SortedByNumber(files, i - 1, i);
      NothingBetweenNeighbours(files, i);
      assert ExtractSequenceNumber(files[i - 1]) != ExtractSequenceNumber(files[i]);
    }
  }

  lemma ConsecutiveIsValid(files: seq<string>)
    requires Consecutive(files)
    ensures NoDuplicates(files) && Missing(files) == {}
    ensures forall i, j :: 0 <= i < j < |files| ==> files[i] != files[j]
  {
    if files != [] {
      var ns := Numbers(files);
      forall n | Min(ns) <= n <= Max(ns) ensures n in ns {
        assert ns[n - ns[0]] == n;
      }
    }
  }

  function FirstUnapplied(files: seq<string>, applied: set<string>): (k: nat)
    ensures k <= |files|
    ensures forall i :: 0 <= i < k ==> files[i] in applied
    ensures k < |files| ==> files[k] !in applied
  {
    if files == [] || files[0] !in applied then 0 else 1 + FirstUnapplied(files[1..], applied)
  }

  lemma AppliedAboveUnapplied(files: seq<string>, applied: set<string>, i: nat)
    requires Consecutive(files) && i < |files| && files[i] in applied && FirstUnapplied(files, applied) < i
    ensures Precedes(files[FirstUnapplied(files, applied)], applied)
  {
  }

  lemma InOrderMeansPrefix(files: seq<string>, applied: set<string>)
    requires Consecutive(files) && applied <= Names(files) && InOrder(files, applied)
    ensures applied == Prefix(files, FirstUnapplied(files, applied))
  {
    var k := FirstUnapplied(files, applied);
    forall f | f in applied ensures f in Prefix(files, k) {
      var i :| 0 <= i < |files| && files[i] == f;
      if k < i {
        AppliedAboveUnapplied(files, applied, i);
      } else {
        assert files[..k][i] == f;
      }
    }
  }

  lemma PrefixIsInOrder(files: seq<string>, k: nat)
    requires Consecutive(files) && k <= |files|
    ensures InOrder(files, Prefix(files, k))
  {
    var applied := Prefix(files, k);
    forall f, g | f in files && f !in applied && g in applied
      ensures ExtractSequenceNumber(g).value <= ExtractSequenceNumber(f).value
    {
      var i :| 0 <= i < |files| && files[i] == f;
      var j :| 0 <= j < k && files[..k][j] == g;
      assert forall n :: 0 <= n < k ==> files[n] in files[..k];
    }
  }

  /**
   For fully numbered files and applied migrations among them, the three sequence rules
   hold exactly when the numbers are consecutive and the applied set is a prefix of the run order.
   */
  lemma RulesMeanConsecutivePrefix(files: seq<string>, applied: set<string>)
    requires Sorted(files) && FullyNumbered(files) && applied <= Names(files)
    ensures NoDuplicates(files) && Missing(files) == {} && InOrder(files, applied)
      <==> Consecutive(files) && exists k :: 0 <= k <= |files| && applied == Prefix(files, k)
  {
    if NoDuplicates(files) && Missing(files) == {} && InOrder(files, applied) {
      forall i | 0 <= i < |files|
        ensures ExtractSequenceNumber(files[i]).value == ExtractSequenceNumber(files[0]).value + i
      {
        NoGapsMeansConsecutive(files, i);
      }
      InOrderMeansPrefix(files, applied);
    }
    if Consecutive(files) {
      ConsecutiveIsValid(files);
      forall k: nat | k <= |files| && applied == Prefix(files, k) { PrefixIsInOrder(files, k); }
    }
  }
}
