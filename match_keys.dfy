/**
 * Match keys: the string a record is compared by, its name and its street
 * address joined by one space.
 */
module MatchKeys {
  import opened Values

  /** What `fillna` puts in place of a missing company name. */
  const NullCompany: string := "NULL Company"
  /** What `fillna` puts in place of a missing first address line. */
  const NullAddress: string := "NULL Address"

  /** `k` is `left`, one space, then `right`. */
  predicate Splits(k: string, left: string, right: string)
  {
    |k| == |left| + 1 + |right| &&
    k[..|left|] == left && k[|left|] == ' ' && k[|left| + 1..] == right
  }

  /** `Series.fillna(sentinel)` on one entry. */
  function FillNa(v: Option<string>, sentinel: string): string
  {
    match v
    case None => sentinel
    case Some(s) => s
  }

  /**
   * `a + ' ' + b` on two string columns: pandas propagates a missing entry on
   * either side to a missing result.
   */
  function JoinFields(a: Option<string>, b: Option<string>): (r: Option<string>)
    ensures r.Some? <==> a.Some? && b.Some?
    ensures r.Some? ==> Splits(r.value, a.value, b.value)
  {
    if a.Some? && b.Some? then Some(a.value + " " + b.value) else None
  }

  /** The same join on two frame cells; a cell that holds no string counts as missing. */
  function JoinCells(a: Cell, b: Cell): (r: Cell)
    ensures r.Text? <==> a.Text? && b.Text?
    ensures r.Text? ==> Splits(r.s, a.s, b.s)
    ensures !r.Text? ==> r == Null
  {
    ToCell(JoinFields(AsText(a), AsText(b)))
  }

  /**
   * The contact match key: the company name (or the company sentinel when it
   * is missing), one space, the address (or the address sentinel). It is
   * defined for every input: a missing part never makes the key missing.
   */
  function MatchKey(company: Option<string>, address: Option<string>): (k: string)
    ensures Splits(k, FillNa(company, NullCompany), FillNa(address, NullAddress))
    ensures company.None? ==> k[..|NullCompany|] == NullCompany
    ensures company.Some? ==> k[..|company.value|] == company.value
    ensures address.None? ==> k[|k| - |NullAddress|..] == NullAddress
    ensures address.Some? ==> k[|k| - |address.value|..] == address.value
    ensures JoinFields(company, address).Some? ==> JoinFields(company, address) == Some(k)
  {
    var name := FillNa(company, NullCompany);
    var street := FillNa(address, NullAddress);
    assert Splits(name + " " + street, name, street);
    name + " " + street
  }

  /**
   * The key does not identify its record: a missing company and a company
   * literally named "NULL Company" get the same key, and so do two records
   * that place a word on opposite sides of the separator.
   */
  lemma {:induction false} MatchKeyAmbiguous(address: Option<string>)
    ensures MatchKey(None, address) == MatchKey(Some(NullCompany), address)
    ensures MatchKey(Some("A B"), Some("C")) == MatchKey(Some("A"), Some("B C"))
  {
    assert "A B" + " " + "C" == "A" + " " + "B C";
  }
}
