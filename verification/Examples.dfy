/** The project in which the concrete examples take place. */
module Examples {
  import opened Identifiers

  const PROJECT := "pr_000"

  lemma ProjectIsCanonical()
    ensures CanonicalId(PROJECT)
  {
    assert CanonicalAt(PROJECT, 2);
  }
}
