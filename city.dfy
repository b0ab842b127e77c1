/** The City value object: a trimmed, non-empty name compared without regard to case. */
module Cities {
  import opened Wrappers
  import opened Text

  const EmptyNameMessage: string := "City name cannot be empty."

  datatype City = City(name: string)

  /** What every constructed City keeps: a non-empty name with no trimmable character at either end. */
  predicate Valid(c: City)
  {
    c.name != [] && HasTrimmedEdges(c.name)
  }

  /**
   * `new City($name)` as the constructor evidently intends: trim, reject an
   * empty result, keep the trimmed name with its case.
   */
  function NewCity(raw: string): (r: Result<City>)
    ensures r.Ok? <==> !AllTrimmable(raw)
    ensures r.Ok? ==> r.value.name == Trim(raw) && Valid(r.value)
    ensures r.Err? ==> r.error == InvalidArgument(EmptyNameMessage)
  {
    TrimEmptyIff(raw);
    TrimShape(raw);
    var trimmed := Trim(raw);
    if trimmed == [] then Err(InvalidArgument(EmptyNameMessage)) else Ok(City(trimmed))
  }

  /**
   * `new City($name)` as written: the promoted `readonly` property is already
   * set when the body runs, so the assignment of the trimmed name raises an
   * \Error whenever the empty-name check passes.
   */
  function NewCityAsWritten(raw: string): (r: Result<City>)
    ensures r.Err?
    ensures r.error == (if NewCity(raw).Ok? then ReadonlyModified("name") else InvalidArgument(EmptyNameMessage))
  {
    var trimmed := Trim(raw);
    if trimmed == [] then Err(InvalidArgument(EmptyNameMessage)) else Err(ReadonlyModified("name"))
  }

  /** A name the intended constructor accepts and the written one rejects. */
  lemma ReadonlyCounterexample()
    ensures NewCity("Sofia") == Ok(City("Sofia"))
    ensures NewCityAsWritten("Sofia") == Err(ReadonlyModified("name"))
  {
    assert TrimLeft("Sofia") == "Sofia";
    assert TrimRight("Sofia") == "Sofia";
  }

  function Value(c: City): string
  {
    c.name
  }

  /** `equals`: the lower-cased names agree. */
  predicate Equals(a: City, b: City)
  {
    Lower(a.name) == Lower(b.name)
  }

  /** City equality is an equivalence relation. */
  lemma EqualsIsEquivalence(a: City, b: City, c: City)
    ensures Equals(a, a)
    ensures Equals(a, b) ==> Equals(b, a)
    ensures Equals(a, b) && Equals(b, c) ==> Equals(a, c)
  {
  }

  /** Two raw names name equal cities when they agree after trimming and case folding. */
  lemma EqualsIgnoresCaseAndSpaces(raw1: string, raw2: string)
    requires NewCity(raw1).Ok? && NewCity(raw2).Ok?
    ensures Equals(NewCity(raw1).value, NewCity(raw2).value) <==> Lower(Trim(raw1)) == Lower(Trim(raw2))
  {
  }

  /** `City("  Sofia ")` equals `City("SOFIA")`, and the stored name keeps its case. */
  lemma SofiaExample()
    ensures NewCity("  Sofia ") == Ok(City("Sofia"))
    ensures NewCity("SOFIA") == Ok(City("SOFIA"))
    ensures Equals(City("Sofia"), City("SOFIA"))
    ensures Value(City("Sofia")) != Lower("Sofia")
  {
    assert TrimLeft("  Sofia ") == TrimLeft(" Sofia ") == "Sofia ";
    assert TrimRight("Sofia ") == TrimRight("Sofia") == "Sofia";
    assert TrimLeft("SOFIA") == "SOFIA";
    assert TrimRight("SOFIA") == "SOFIA";
    assert Lower("Sofia") == "sofia" == Lower("SOFIA");
  }
}
