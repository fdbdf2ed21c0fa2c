/** Checks on the corpus before cleaning: the respondent mapping must cover
    exactly the corpus (`get_file_names_mapping`), and the sheet names that
    are not standard across the corpus (`get_non_standard_sheetnames`). */
module Diagnostics {
  import opened Wrappers
  import opened Workbooks

  /** The respondent mapping, already read from JSON, is accepted unchanged
      when its keys are exactly the corpus's keys; any extra or missing key
      fails the `assert`. */
  function GetFileNamesMapping(mapping: map<string, string>, c: seq<Entry>): (r: Result<map<string, string>, Error>)
    ensures r.Success? <==> mapping.Keys == Keys(c)
    ensures r.Success? ==> r.value == mapping
    ensures r.Failure? ==> r.error == MappingKeysMismatch
  {
    if mapping.Keys == Keys(c) then Success(mapping) else Failure(MappingKeysMismatch)
  }

  /** A mapping with a key that names no workbook is rejected. */
  lemma MappingExtraKeyRejected(mapping: map<string, string>, c: seq<Entry>, k: string)
    requires k in mapping
    requires forall i :: 0 <= i < |c| ==> c[i].key != k
    ensures GetFileNamesMapping(mapping, c) == Failure(MappingKeysMismatch)
  {
    assert k !in Keys(c);
  }

  /** A mapping that misses a workbook is rejected. */
  lemma MappingMissingKeyRejected(mapping: map<string, string>, c: seq<Entry>, i: nat)
    requires i < |c| && c[i].key !in mapping
    ensures GetFileNamesMapping(mapping, c) == Failure(MappingKeysMismatch)
  {
    assert c[i].key in Keys(c);
  }

  /** An accepted mapping gives every workbook a respondent and names nothing else. */
  lemma MappingAcceptedCoversCorpus(mapping: map<string, string>, c: seq<Entry>)
    requires GetFileNamesMapping(mapping, c).Success?
    ensures forall i :: 0 <= i < |c| ==> c[i].key in GetFileNamesMapping(mapping, c).value
    ensures forall k :: k in GetFileNamesMapping(mapping, c).value ==> exists i :: 0 <= i < |c| && c[i].key == k
  {
    forall i | 0 <= i < |c| ensures c[i].key in mapping {
      assert c[i].key in Keys(c);
    }
  }

  /** Every sheet name used anywhere in the corpus. */
  function UnionNames(c: seq<Entry>): set<string> {
    if c == [] then {} else NameSet(c[0].book) + UnionNames(c[1..])
  }

  /** The sheet names used in every workbook of a non-empty corpus. */
  function CommonNames(c: seq<Entry>): set<string>
    requires c != []
  {
    if |c| == 1 then NameSet(c[0].book) else NameSet(c[0].book) * CommonNames(c[1..])
  }

  /** The names held to be standard: the given list when it is non-empty,
      otherwise the names common to all workbooks. */
  function ExpectedNames(c: seq<Entry>, predefined: seq<string>): set<string>
    requires c != []
  {
    if |predefined| < 1 then CommonNames(c) else set x | x in predefined
  }

  /** `get_non_standard_sheetnames`: the corpus's sheet names minus the
      expected ones. The first workbook is indexed whether or not a list is
      given, so an empty corpus raises `IndexError`. */
  function GetNonStandardSheetnames(c: seq<Entry>, predefined: seq<string>): (r: Result<set<string>, Error>)
    ensures r.Failure? <==> c == []
    ensures r.Failure? ==> r.error == EmptyCorpus
    ensures r.Success? ==> r.value <= UnionNames(c) && r.value !! ExpectedNames(c, predefined)
  {
    if c == [] then Failure(EmptyCorpus) else Success(UnionNames(c) - ExpectedNames(c, predefined))
  }

  /** A name is in the union exactly when some workbook has a sheet of that name. */
  lemma {:induction false} UnionNamesMember(c: seq<Entry>, x: string)
    ensures x in UnionNames(c) <==> exists i :: 0 <= i < |c| && x in NameSet(c[i].book)
    decreases |c|
  {
    if c != [] {
      UnionNamesMember(c[1..], x);
      if x in UnionNames(c[1..]) {
        var i :| 0 <= i < |c[1..]| && x in NameSet(c[1..][i].book);
        assert c[i + 1] == c[1..][i];
      }
      if exists i :: 0 <= i < |c| && x in NameSet(c[i].book) {
        var i :| 0 <= i < |c| && x in NameSet(c[i].book);
        if i > 0 {
          assert c[1..][i - 1] == c[i];
        }
      }
    }
  }

  /** A name is common exactly when every workbook has a sheet of that name. */
  lemma {:induction false} CommonNamesMember(c: seq<Entry>, x: string)
    requires c != []
    ensures x in CommonNames(c) <==> forall i :: 0 <= i < |c| ==> x in NameSet(c[i].book)
    decreases |c|
  {
    if |c| > 1 {
      CommonNamesMember(c[1..], x);
      if x in CommonNames(c) {
        forall i | 0 <= i < |c| ensures x in NameSet(c[i].book) {
          if i > 0 {
            assert c[1..][i - 1] == c[i];
          }
        }
      }
      if forall i :: 0 <= i < |c| ==> x in NameSet(c[i].book) {
        forall i | 0 <= i < |c[1..]| ensures x in NameSet(c[1..][i].book) {
          assert c[1..][i] == c[i + 1];
        }
      }
    }
  }

  /** A name is reported exactly when some workbook uses it and it is not expected. */
  lemma NonStandardMember(c: seq<Entry>, predefined: seq<string>, x: string)
    requires c != []
    ensures x in GetNonStandardSheetnames(c, predefined).value <==>
      (exists i :: 0 <= i < |c| && x in NameSet(c[i].book)) && x !in ExpectedNames(c, predefined)
  {
    UnionNamesMember(c, x);
  }

  /** Without a list, a name is reported exactly when some workbooks use it
      and others do not. */
  lemma NonStandardWithoutList(c: seq<Entry>, x: string)
    requires c != []
    ensures x in GetNonStandardSheetnames(c, []).value <==>
      (exists i :: 0 <= i < |c| && x in NameSet(c[i].book)) &&
      (exists j :: 0 <= j < |c| && x !in NameSet(c[j].book))
  {
    UnionNamesMember(c, x);
    CommonNamesMember(c, x);
  }

  /** Nothing is reported when no list is given and all workbooks have the
      same sheet names. */
  lemma NonStandardEmptyWhenUniform(c: seq<Entry>)
    requires c != []
    requires forall i :: 0 <= i < |c| ==> NameSet(c[i].book) == NameSet(c[0].book)
    ensures GetNonStandardSheetnames(c, []).value == {}
  {
    forall x | x in GetNonStandardSheetnames(c, []).value ensures false {
      NonStandardWithoutList(c, x);
    }
  }

  /** The report is empty exactly when every workbook's sheet names are all expected. */
  lemma NonStandardEmptyIff(c: seq<Entry>, predefined: seq<string>)
    requires c != []
    ensures GetNonStandardSheetnames(c, predefined).value == {} <==>
      forall i :: 0 <= i < |c| ==> NameSet(c[i].book) <= ExpectedNames(c, predefined)
  {
    var r := GetNonStandardSheetnames(c, predefined).value;
    if r == {} {
      forall i, x | 0 <= i < |c| && x in NameSet(c[i].book) ensures x in ExpectedNames(c, predefined) {
        NonStandardMember(c, predefined, x);
      }
    }
    if forall i :: 0 <= i < |c| ==> NameSet(c[i].book) <= ExpectedNames(c, predefined) {
      forall x | x in r ensures false {
        NonStandardMember(c, predefined, x);
      }
    }
  }
}
