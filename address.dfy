/** Address clean-up applied before geocoding (preprocess_address). */
module Address {
  import opened Wrappers
  import opened Text

  /** A falsy address (None or the empty string) becomes "", anything else has
      every '&' spelled "and", every "EXIT" written "Exit", and is stripped. */
  function PreprocessAddress(addr: Option<string>): (r: string)
    ensures addr == None || addr == Some("") ==> r == ""
    ensures r == [] || (!IsSpace(r[0]) && !IsSpace(r[|r| - 1]))
  {
    match addr
    case None => ""
    case Some(a) =>
      if a == "" then "" else Strip(ReplaceAll(ReplaceAll(a, "&", "and"), "EXIT", "Exit"))
  }

  /** An address is in normal form when it has no '&', no "EXIT" and no
      whitespace at either end. */
  predicate Normalised(s: string) {
    && '&' !in s
    && !Occurs(s, "EXIT")
    && (s == [] || (!IsSpace(s[0]) && !IsSpace(s[|s| - 1])))
  }

  /** Whatever the input, the result is in normal form. */
  lemma PreprocessNormalises(addr: Option<string>)
    ensures Normalised(PreprocessAddress(addr))
    ensures addr == None || addr == Some("") ==> PreprocessAddress(addr) == ""
  {
    if addr.Some? && addr.value != "" {
      var a := addr.value;
      var once := ReplaceAll(a, "&", "and");
      var twice := ReplaceAll(once, "EXIT", "Exit");
      ReplaceRemovesChar(a, '&', "and");
      ReplaceAllChars(once, "EXIT", "Exit");
      ReplaceExitComplete(once);
      StripKeeps(twice, "EXIT");
      StripSlice(twice);
    }
  }

  /** An address already in normal form is returned unchanged. */
  lemma PreprocessFixesNormalised(s: string)
    requires Normalised(s)
    ensures PreprocessAddress(Some(s)) == s
  {
    if s != "" {
      CharNotOccurs(s, '&');
      ReplaceAbsent(s, "&", "and");
      ReplaceAbsent(s, "EXIT", "Exit");
      StripStripped(s);
    }
  }

  /** Pre-processing twice is the same as pre-processing once. */
  lemma PreprocessIdempotent(addr: Option<string>)
    ensures PreprocessAddress(Some(PreprocessAddress(addr))) == PreprocessAddress(addr)
  {
    PreprocessNormalises(addr);
    PreprocessFixesNormalised(PreprocessAddress(addr));
  }
}
