/**
 The Windows system-error pages: a definition list whose top-level terms
 each name one error (the bold text of the term's paragraph) and whose
 following definition holds a nested list of terms, the first giving the
 code as text such as "1 (0x1)", the second the description.
 */
module Windows {
  import opened Records
  import opened Text

  /**
   One top-level `dt` of the page, reduced to the texts the extraction reads.
   `alias` is the text of the term's `p.strong` (None when the term has no
   paragraph or the paragraph has no bold element); `terms` lists, in
   document order, the paragraph texts of the `dt` elements under the `dl`
   of the next `dd` sibling (None when there is no such `dd` or it has no
   `dl`; an element None when that nested term has no paragraph).
   */
  datatype WindowsEntry = WindowsEntry(alias: Option<string>, terms: Option<seq<Option<string>>>)

  /** A page: its first `dl` and that list's top-level entries, if it has one. */
  datatype WindowsPage = NoDefinitionList | DefinitionList(entries: seq<WindowsEntry>)

  /**
   `convert_windows_error_codes`: the integer value of the first
   whitespace-delimited token. A string with no token raises IndexError
   (indexing the empty `split()` result); a first token that is not an
   integer literal raises ValueError.
   */
  function ConvertWindowsErrorCode(s: string): Result<int>
  {
    match FirstToken(s)
    case None => Failure(IndexError)
    case Some(token) => PyInt(token)
  }

  /**
   The two ways the conversion fails: IndexError exactly when the string is
   empty or all whitespace, ValueError exactly when its first token is not an
   integer literal; otherwise the value is that literal's.
   */
  lemma ConvertFailures(s: string)
    ensures ConvertWindowsErrorCode(s) == Failure(IndexError) <==> AllSpace(s)
    ensures ConvertWindowsErrorCode(s) == Failure(ValueError) <==>
      !AllSpace(s) && ParseIntLiteral(FirstToken(s).value).Failure?
    ensures ConvertWindowsErrorCode(s).Success? ==>
      ConvertWindowsErrorCode(s) == ParseIntLiteral(FirstToken(s).value)
  {
    FirstTokenNone(s);
    if FirstToken(s).Some? {
      FirstTokenSplits(s);
      PyIntOfWord(FirstToken(s).value);
    }
  }

  /**
   Only the first token counts: leading whitespace, then a word, then
   anything that starts with whitespace, converts as the word alone.
   */
  lemma ConvertReadsFirstToken(ws: string, word: string, rest: string)
    requires AllSpace(ws) && word != [] && NoSpace(word)
    requires rest == [] || IsSpace(rest[0])
    ensures ConvertWindowsErrorCode(ws + word + rest) == ParseIntLiteral(word)
  {
    FirstTokenOf(ws, word, rest);
    PyIntOfWord(word);
  }

  /** A code written in decimal and followed by an annotation converts back to itself. */
  lemma ConvertShownCode(n: int, annotation: string)
    requires annotation == [] || IsSpace(annotation[0])
    ensures ConvertWindowsErrorCode(ShowInt(n) + annotation) == Success(n)
  {
    assert ShowInt(n) == [] + ShowInt(n);
    ConvertReadsFirstToken([], ShowInt(n), annotation);
    ParseShowInt(n);
  }

  /** The page format's first example: "1 (0x1)" converts to 1. */
  lemma ConvertExampleOne()
    ensures ConvertWindowsErrorCode("1 (0x1)") == Success(1)
  {
    assert "1 (0x1)" == [] + "1" + " (0x1)";
    ConvertReadsFirstToken([], "1", " (0x1)");
    assert DigitsValue("1") == 1 by {
      assert "1"[..0] == [];
    }
  }

  /** "1300 (0x514)" converts to 1300: the hexadecimal annotation is ignored. */
  lemma ConvertExample1300()
    ensures ConvertWindowsErrorCode("1300 (0x514)") == Success(1300)
  {
    assert "1300 (0x514)" == [] + "1300" + " (0x514)";
    ConvertReadsFirstToken([], "1300", " (0x514)");
    assert DigitsValue("1300") == 1300 by {
      assert "1300"[..3] == "130" && "130"[..2] == "13" && "13"[..1] == "1" && "1"[..0] == [];
    }
  }

  /** An empty string has no token, and a hexadecimal first token is no integer literal. */
  lemma ConvertFailureExamples()
    ensures ConvertWindowsErrorCode("") == Failure(IndexError)
    ensures ConvertWindowsErrorCode("0x1 (1)") == Failure(ValueError)
  {
    assert "0x1 (1)" == [] + "0x1" + " (1)";
    ConvertReadsFirstToken([], "0x1", " (1)");
    assert !IsDigit("0x1"[1]);
  }

  /**
   The record of one top-level entry. Python evaluates the alias first, then
   the nested list, then the code (`terms[0]`, then its conversion) and last
   the description (`terms[1]`); the first of these that is missing or
   malformed raises, so an entry with fewer than two nested terms fails.
   */
  function EntryRecord(e: WindowsEntry): (r: Result<ErrorDetail>)
    ensures r.Success? <==>
      e.alias.Some? && e.terms.Some? && |e.terms.value| >= 2 &&
      e.terms.value[0].Some? && e.terms.value[1].Some? &&
      ConvertWindowsErrorCode(e.terms.value[0].value).Success?
    ensures r.Success? ==> r.value == ErrorDetail(
      ConvertWindowsErrorCode(e.terms.value[0].value).value,
      e.alias.value, e.terms.value[1].value)
    ensures e.alias.None? ==> r == Failure(AttributeError)
    ensures e.alias.Some? && e.terms.None? ==> r == Failure(AttributeError)
    ensures e.alias.Some? && e.terms.Some? && e.terms.value == [] ==> r == Failure(IndexError)
    ensures (e.alias.Some? && e.terms.Some? && |e.terms.value| >= 1 && e.terms.value[0].None?) ==>
      r == Failure(AttributeError)
    ensures (e.alias.Some? && e.terms.Some? && |e.terms.value| >= 1 && e.terms.value[0].Some? &&
             ConvertWindowsErrorCode(e.terms.value[0].value).Failure?) ==>
      r == Failure(ConvertWindowsErrorCode(e.terms.value[0].value).error)
    ensures (e.alias.Some? && e.terms.Some? && |e.terms.value| == 1 && e.terms.value[0].Some? &&
             ConvertWindowsErrorCode(e.terms.value[0].value).Success?) ==> r == Failure(IndexError)
    ensures (e.alias.Some? && e.terms.Some? && |e.terms.value| >= 2 && e.terms.value[0].Some? &&
             ConvertWindowsErrorCode(e.terms.value[0].value).Success? && e.terms.value[1].None?) ==>
      r == Failure(AttributeError)
  {
    var alias :- Present(e.alias);
    var terms :- Present(e.terms);
    if |terms| == 0 then Failure(IndexError)
    else
      var first :- Present(terms[0]);
      var code :- ConvertWindowsErrorCode(first);
      if |terms| < 2 then Failure(IndexError)
      else
        var description :- Present(terms[1]);
        Success(ErrorDetail(code, alias, description))
  }

  /** `parse_windows_doc` on a fetched page: one record per top-level entry. */
  function WindowsRecords(page: WindowsPage): Result<seq<ErrorDetail>>
  {
    match page
    case NoDefinitionList => Failure(AttributeError)
    case DefinitionList(entries) => MapAll(entries, EntryRecord)
  }

  /** The loop of `parse_windows_doc`, appending one record per entry. */
  method ParseWindowsDoc(page: WindowsPage) returns (r: Result<seq<ErrorDetail>>)
    ensures r == WindowsRecords(page)
  {
    if page.NoDefinitionList? {
      return Failure(AttributeError);
    }
    var entries := page.entries;
    var errorCodes: seq<ErrorDetail> := [];
    for i := 0 to |entries|
      invariant MapAll(entries[..i], EntryRecord) == Success(errorCodes)
    {
      var record := EntryRecord(entries[i]);
      MapAllExtend(entries, i, EntryRecord, errorCodes);
      if record.Failure? {
        return Failure(record.error);
      }
      errorCodes := errorCodes + [record.value];
    }
    assert entries[..|entries|] == entries;
    return Success(errorCodes);
  }

  /**
   A page parses exactly when it has a definition list and every entry
   parses; the records are then one per entry, in document order, taking the
   alias from the entry, the code from the first nested term and the
   description from the second. A failing page fails with the first failing
   entry's error.
   */
  lemma WindowsRecordsOrder(page: WindowsPage)
    ensures WindowsRecords(page).Success? <==>
      page.DefinitionList? && forall i :: 0 <= i < |page.entries| ==> EntryRecord(page.entries[i]).Success?
    ensures WindowsRecords(page).Success? ==>
      var rs := WindowsRecords(page).value;
      |rs| == |page.entries| &&
      forall i :: 0 <= i < |rs| ==>
        rs[i].alias == page.entries[i].alias.value &&
        rs[i].code == ConvertWindowsErrorCode(page.entries[i].terms.value[0].value).value &&
        rs[i].description == page.entries[i].terms.value[1].value
    ensures page.DefinitionList? && WindowsRecords(page).Failure? ==>
      var k := FirstFailure(page.entries, EntryRecord);
      k.Some? && WindowsRecords(page).error == EntryRecord(page.entries[k.value]).error
  {
    if page.DefinitionList? {
      MapAllSuccess(page.entries, EntryRecord);
      MapAllFailure(page.entries, EntryRecord);
    }
  }

  /**
   A page whose one entry carries an alias, a code written in decimal with an
   annotation after it, and a description, gives exactly that one record.
   */
  lemma SingleEntryPage(alias: string, n: int, annotation: string, description: string)
    requires annotation == [] || IsSpace(annotation[0])
    ensures WindowsRecords(DefinitionList([WindowsEntry(Some(alias),
      Some([Some(ShowInt(n) + annotation), Some(description)]))])) ==
      Success([ErrorDetail(n, alias, description)])
  {
    ConvertShownCode(n, annotation);
    var e := WindowsEntry(Some(alias), Some([Some(ShowInt(n) + annotation), Some(description)]));
    assert EntryRecord(e) == Success(ErrorDetail(n, alias, description));
    var none: seq<WindowsEntry> := [];
    var noRecords: seq<ErrorDetail> := [];
    assert [e][..0] == none;
    assert MapAll(none, EntryRecord) == Success(noRecords);
    assert noRecords + [ErrorDetail(n, alias, description)] == [ErrorDetail(n, alias, description)];
    assert MapAll([e], EntryRecord) == Success([ErrorDetail(n, alias, description)]);
  }

  /** The ERROR_SUCCESS entry: "0 (0x0)" and "The operation completed successfully.". */
  lemma ErrorSuccessPage()
    ensures WindowsRecords(DefinitionList([WindowsEntry(Some("ERROR_SUCCESS"),
      Some([Some("0 (0x0)"), Some("The operation completed successfully.")]))])) ==
      Success([ErrorDetail(0, "ERROR_SUCCESS", "The operation completed successfully.")])
  {
    assert ShowInt(0) + " (0x0)" == "0 (0x0)";
    SingleEntryPage("ERROR_SUCCESS", 0, " (0x0)", "The operation completed successfully.");
  }

  /**
   The separators U+001C..U+001F are whitespace to `str.split()`, so a code
   led by one still converts, unlike a Linux number cell led by one.
   */
  lemma SeparatorLedCode(c: char, n: int)
    requires '\U{1C}' <= c <= '\U{1F}'
    ensures ConvertWindowsErrorCode([c] + ShowInt(n)) == Success(n)
  {
    assert [c] + ShowInt(n) == [c] + ShowInt(n) + [];
    ConvertReadsFirstToken([c], ShowInt(n), []);
    ParseShowInt(n);
  }
}
