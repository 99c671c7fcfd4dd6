/**
 * The contact-file side of the script: the positional row slice, the
 * missing-value fill and MATCH column, the postal-code subset and the pick of
 * the query key.
 */
module Contacts {
  import opened Values
  import opened MatchKeys

  /** The one postal code the script matches against. */
  const TargetPostal: string := "57401"
  /** Bounds of the positional row slice taken from the contact file. */
  const SliceStart: nat := 6173
  const SliceEnd: nat := 88505

  /** A contact-file row, reduced to the columns the script reads or writes. */
  datatype Contact = Contact(
    company: Option<string>,     // 'Company'
    address: Option<string>,     // 'Address 1'
    postalMatch: Option<string>, // 'postal_match'
    matchKey: Option<string>)    // 'MATCH'; None also while the column is absent

  function Min(a: int, b: int): int { if a <= b then a else b }

  /** `df.iloc[lo:hi, :]`: Python clamps slice bounds to the number of rows. */
  function SliceRows<T>(rows: seq<T>, lo: nat, hi: nat): (r: seq<T>)
    ensures |r| == if lo < Min(hi, |rows|) then Min(hi, |rows|) - lo else 0
    ensures forall k :: 0 <= k < |r| ==> r[k] == rows[lo + k]
    ensures multiset(r) <= multiset(rows)
  {
    if lo < Min(hi, |rows|) then
      assert rows == rows[..lo] + rows[lo..Min(hi, |rows|)] + rows[Min(hi, |rows|)..];
      rows[lo..Min(hi, |rows|)]
    else []
  }

  /** Fill both sentinels in one row, then set its MATCH entry. */
  function FillContact(c: Contact): (d: Contact)
    ensures d.company.Some? && d.address.Some? && d.matchKey.Some?
    ensures c.company.Some? ==> d.company == c.company
    ensures c.company.None? ==> d.company == Some(NullCompany)
    ensures c.address.Some? ==> d.address == c.address
    ensures c.address.None? ==> d.address == Some(NullAddress)
    ensures d.matchKey == JoinFields(d.company, d.address)
    ensures d.matchKey == Some(MatchKey(c.company, c.address))
    ensures d.postalMatch == c.postalMatch
  {
    c.(company := Some(FillNa(c.company, NullCompany)),
       address := Some(FillNa(c.address, NullAddress)),
       matchKey := Some(MatchKey(c.company, c.address)))
  }

  /**
   * The contact table after the two `fillna` calls and the MATCH column: every
   * row keeps its place and its postal code, and gets a key that is never
   * missing.
   */
  function PrepareContacts(rows: seq<Contact>): (r: seq<Contact>)
    ensures |r| == |rows|
    ensures forall i :: 0 <= i < |r| ==>
      r[i].matchKey == Some(MatchKey(rows[i].company, rows[i].address)) &&
      r[i].postalMatch == rows[i].postalMatch
    ensures forall i :: 0 <= i < |r| ==> r[i] == FillContact(rows[i])
  {
    seq(|rows|, i requires 0 <= i < |rows| => FillContact(rows[i]))
  }

  /**
   * The contact table of lines 106-110: the positional slice of the file's
   * rows, then the fill and the MATCH column.
   */
  function LoadContacts(df: seq<Contact>): (r: seq<Contact>)
    ensures |r| <= SliceEnd - SliceStart
    ensures |r| == |SliceRows(df, SliceStart, SliceEnd)|
    ensures forall k :: 0 <= k < |r| ==>
      SliceStart + k < |df| && r[k] == FillContact(df[SliceStart + k])
  {
    PrepareContacts(SliceRows(df, SliceStart, SliceEnd))
  }

  /** `rows.loc[rows['postal_match'] == pc]`: a missing postal code never matches. */
  function PostalSubset(rows: seq<Contact>, pc: string): (r: seq<Contact>)
    ensures |r| <= |rows|
    ensures forall x :: x in r ==> x.postalMatch == Some(pc)
    ensures forall x {:trigger multiset(r)[x]} ::
      multiset(r)[x] == if x.postalMatch == Some(pc) then multiset(rows)[x] else 0
  {
    if rows == [] then []
    else
      assert rows == [rows[0]] + rows[1..];
      (if rows[0].postalMatch == Some(pc) then [rows[0]] else []) + PostalSubset(rows[1..], pc)
  }

  /**
   * `eloqua_subset(pc)` as written: it keeps exactly the "57401" rows, each as
   * often as in the input, whatever `pc` is.
   */
  function EloquaSubset(cl: seq<Contact>, pc: string): (r: seq<Contact>)
    ensures forall x :: x in r ==> x.postalMatch == Some(TargetPostal)
    ensures forall x {:trigger multiset(r)[x]} ::
      multiset(r)[x] == if x.postalMatch == Some(TargetPostal) then multiset(cl)[x] else 0
  {
    PostalSubset(cl, TargetPostal)
  }

  /** The argument of `eloqua_subset` makes no difference to its result. */
  lemma EloquaSubsetAnyArgument(cl: seq<Contact>, a: string, b: string)
    ensures EloquaSubset(cl, a) == EloquaSubset(cl, b)
  {
  }

  /** Recompute MATCH from the two unfilled columns (a missing part gives a missing key). */
  function Rekey(rows: seq<Contact>): (r: seq<Contact>)
    ensures |r| == |rows|
    ensures forall i :: 0 <= i < |r| ==>
      r[i].matchKey == JoinFields(rows[i].company, rows[i].address) &&
      r[i] == rows[i].(matchKey := r[i].matchKey)
  {
    seq(|rows|, i requires 0 <= i < |rows| =>
      rows[i].(matchKey := JoinFields(rows[i].company, rows[i].address)))
  }

  /** `iloc[0, -1]`: the MATCH entry of the first row, an IndexError when there is none. */
  function QueryKey(rows: seq<Contact>): (r: Result<Option<string>>)
    ensures r.Err? <==> |rows| == 0
    ensures r.Err? ==> r.error == IndexError
    ensures r.Ok? ==> r.value == rows[0].matchKey
  {
    if |rows| == 0 then Err(IndexError) else Ok(rows[0].matchKey)
  }

  /** `i` is the first row whose postal code is `pc`. */
  predicate FirstWith(rows: seq<Contact>, pc: string, i: nat)
  {
    i < |rows| && rows[i].postalMatch == Some(pc) &&
    forall j :: 0 <= j < i ==> rows[j].postalMatch != Some(pc)
  }

  /** The subset keeps the original order: it distributes over concatenation. */
  lemma {:induction false} PostalSubsetAppend(a: seq<Contact>, b: seq<Contact>, pc: string)
    ensures PostalSubset(a + b, pc) == PostalSubset(a, pc) + PostalSubset(b, pc)
  {
    if a == [] {
      assert a + b == b;
    } else {
      assert (a + b)[0] == a[0] && (a + b)[1..] == a[1..] + b;
      PostalSubsetAppend(a[1..], b, pc);
    }
  }

  /** The first row of the subset is the first matching row of the input. */
  lemma {:induction false} PostalSubsetFirst(rows: seq<Contact>, pc: string, i: nat)
    requires FirstWith(rows, pc, i)
    ensures |PostalSubset(rows, pc)| > 0 && PostalSubset(rows, pc)[0] == rows[i]
  {
    if i > 0 {
      assert FirstWith(rows[1..], pc, i - 1);
      PostalSubsetFirst(rows[1..], pc, i - 1);
    }
  }

  /** A non-empty subset begins with the first input row that has the postal code. */
  lemma {:induction false} PostalSubsetHead(rows: seq<Contact>, pc: string)
    ensures PostalSubset(rows, pc) != [] ==>
      exists i: nat :: FirstWith(rows, pc, i) && PostalSubset(rows, pc)[0] == rows[i]
  {
    if rows != [] && rows[0].postalMatch != Some(pc) && PostalSubset(rows, pc) != [] {
      assert PostalSubset(rows, pc) == PostalSubset(rows[1..], pc);
      PostalSubsetHead(rows[1..], pc);
      var i: nat :| FirstWith(rows[1..], pc, i) && PostalSubset(rows[1..], pc)[0] == rows[1..][i];
      assert FirstWith(rows, pc, i + 1);
    } else if rows != [] && rows[0].postalMatch == Some(pc) {
      assert FirstWith(rows, pc, 0);
    }
  }

  /** The subset is empty exactly when no row has the postal code. */
  lemma {:induction false} PostalSubsetEmpty(rows: seq<Contact>, pc: string)
    ensures PostalSubset(rows, pc) == [] <==> forall i :: 0 <= i < |rows| ==> rows[i].postalMatch != Some(pc)
  {
    if rows != [] {
      PostalSubsetEmpty(rows[1..], pc);
      assert forall i :: 1 <= i < |rows| ==> rows[i] == rows[1..][i - 1];
    }
  }

  /** Recomputing MATCH on a filled table (line 116 on the output of lines 108-110) changes nothing. */
  lemma RekeyPrepared(rows: seq<Contact>)
    ensures Rekey(PrepareContacts(rows)) == PrepareContacts(rows)
  {
    var p := PrepareContacts(rows);
    assert forall i :: 0 <= i < |p| ==> Rekey(p)[i] == p[i];
  }

  /**
   * When the contact table is the filled one, the query key is the never-missing
   * match key of the first contact with the target postal code.
   */
  lemma {:induction false} QueryKeyOfFirstCandidate(rows: seq<Contact>, i: nat)
    requires FirstWith(rows, TargetPostal, i)
    ensures QueryKey(Rekey(PostalSubset(PrepareContacts(rows), TargetPostal)))
         == Ok(Some(MatchKey(rows[i].company, rows[i].address)))
  {
    var p := PrepareContacts(rows);
    assert FirstWith(p, TargetPostal, i);
    PostalSubsetFirst(p, TargetPostal, i);
  }

  /** With no contact at the target postal code, picking the query key fails. */
  lemma {:induction false} QueryKeyWithoutCandidate(rows: seq<Contact>)
    requires forall i :: 0 <= i < |rows| ==> rows[i].postalMatch != Some(TargetPostal)
    ensures QueryKey(Rekey(PostalSubset(rows, TargetPostal))) == Err(IndexError)
  {
    PostalSubsetEmpty(rows, TargetPostal);
  }

  /**
   * `eloqua_subset` ignores its argument: asked for "55401" it still returns
   * only "57401" rows, and so misses a row the argument names.
   */
  lemma EloquaSubsetIgnoresArgument()
    ensures var row := Contact(Some("Acme"), Some("1 Main St"), Some("55401"), None);
      EloquaSubset([row], "55401") == [] && PostalSubset([row], "55401") == [row]
  {
  }
}
