/**
 The libcurl error page: every `span` whose text reads like
 `CURLE_UNSUPPORTED_PROTOCOL(1)` names one error; the description is the
 next `p` sibling of the span's parent element. The three regular
 expressions of the extraction are written out here as character-level
 functions: the selection `^CURLE.+\(\d+\)$`, the code `\(\d+\)` (the
 leftmost match) and the alias `^CURLE[_A-Z]+`.
 */
module Curl {
  import opened Records
  import opened Text

  /**
   A `span` of the page: its text and the text of the first `p` sibling
   after its parent element (None when there is none).
   */
  datatype CurlSpan = CurlSpan(text: string, nextParagraph: Option<string>)

  /** A character of `[_A-Z]`. */
  predicate IsAliasChar(c: char) { c == '_' || IsUpper(c) }

  /**
   `$` without MULTILINE matches at the end of the text or just before a
   final newline, so a text ending in "\n" is matched without it.
   */
  function WithoutFinalNewline(t: string): string
  {
    if |t| > 0 && t[|t| - 1] == '\n' then t[..|t| - 1] else t
  }

  /**
   `^CURLE.+\(\d+\)$` matched against a whole text that has no final
   newline: "CURLE", one or more characters other than a newline, "(", one
   or more digits, ")".
   */
  predicate MatchesSelection(u: string)
  {
    |u| >= 9 && u[..5] == "CURLE" && u[|u| - 1] == ')' &&
    (forall i :: 0 <= i < |u| ==> u[i] != '\n') &&
    exists p :: 6 <= p < |u| - 2 && u[p] == '(' && AllDigits(u[p + 1..|u| - 1])
  }

  /** Whether the span is one of those `find_all` returns. */
  predicate Selected(t: string)
  {
    MatchesSelection(WithoutFinalNewline(t))
  }

  /** The spans the selection keeps, in document order. */
  function SelectedSpans(spans: seq<CurlSpan>): (r: seq<CurlSpan>)
    ensures |r| <= |spans|
    ensures forall x :: x in r ==> x in spans && Selected(x.text)
    ensures forall i :: 0 <= i < |spans| && Selected(spans[i].text) ==> spans[i] in r
  {
    if spans == [] then []
    else
      var rest := SelectedSpans(spans[1..]);
      assert forall i :: 1 <= i < |spans| ==> spans[i] == spans[1..][i - 1];
      if Selected(spans[0].text) then [spans[0]] + rest else rest
  }

  /** A single span is kept exactly when its text matches. */
  lemma SelectedSpansSingle(x: CurlSpan)
    ensures SelectedSpans([x]) == if Selected(x.text) then [x] else []
  {
    assert [x][1..] == [];
  }

  /**
   The selection of consecutive parts is the concatenation of the parts'
   selections: with the single-span case, the selection keeps every
   matching span, once, in document order.
   */
  lemma {:induction false} SelectedSpansAppend(a: seq<CurlSpan>, b: seq<CurlSpan>)
    ensures SelectedSpans(a + b) == SelectedSpans(a) + SelectedSpans(b)
  {
    if a == [] {
      assert a + b == b;
    } else {
      assert (a + b)[0] == a[0];
      assert (a + b)[1..] == a[1..] + b;
      SelectedSpansAppend(a[1..], b);
    }
  }

  /** The index of the first non-digit at or after `i`, or `|t|`. */
  function DigitEnd(t: string, i: nat): (j: nat)
    requires i <= |t|
    ensures i <= j <= |t| && AllDigits(t[i..j])
    ensures j < |t| ==> !IsDigit(t[j])
    decreases |t| - i
  {
    if i < |t| && IsDigit(t[i]) then DigitEnd(t, i + 1) else i
  }

  /**
   Whether `\(\d+\)` matches at index `i`: a "(", then the longest run of
   digits, which must be non-empty, then ")". A shorter run could only be
   followed by a digit, so backtracking finds no other match.
   */
  predicate ParenGroupAt(t: string, i: nat)
  {
    i < |t| && t[i] == '(' &&
    var j := DigitEnd(t, i + 1);
    i + 1 < j < |t| && t[j] == ')'
  }

  /** `re.search(r"\(\d+\)", t)`: the leftmost index, at or after `i`, where a group matches. */
  function FindParenGroup(t: string, i: nat): (r: Option<nat>)
    requires i <= |t|
    ensures r.Some? ==> i <= r.value < |t| && ParenGroupAt(t, r.value)
    ensures r.Some? ==> forall m :: i <= m < r.value ==> !ParenGroupAt(t, m)
    ensures r.None? ==> forall m :: i <= m < |t| ==> !ParenGroupAt(t, m)
    decreases |t| - i
  {
    if i == |t| then None
    else if ParenGroupAt(t, i) then Some(i)
    else FindParenGroup(t, i + 1)
  }

  /** The digits of the group matched at `i` (what `re.search(r"\d+", ...)` takes out of it). */
  function GroupDigits(t: string, i: nat): (d: string)
    requires ParenGroupAt(t, i)
    ensures d != [] && AllDigits(d)
    ensures i + 1 + |d| < |t| && t[i + 1..i + 1 + |d|] == d && t[i + 1 + |d|] == ')'
  {
    t[i + 1..DigitEnd(t, i + 1)]
  }

  /** The index of the first character outside `[_A-Z]` at or after `i`, or `|t|`. */
  function AliasEnd(t: string, i: nat): (j: nat)
    requires i <= |t|
    ensures i <= j <= |t|
    ensures forall k :: i <= k < j ==> IsAliasChar(t[k])
    ensures j < |t| ==> !IsAliasChar(t[j])
    decreases |t| - i
  {
    if i < |t| && IsAliasChar(t[i]) then AliasEnd(t, i + 1) else i
  }

  /**
   `re.search(r"^CURLE[_A-Z]+", t)`: the longest prefix made of "CURLE" and
   one or more characters of `[_A-Z]`, if the text starts that way.
   */
  function CurlAlias(t: string): (r: Option<string>)
    ensures r.Some? <==> |t| >= 6 && t[..5] == "CURLE" && IsAliasChar(t[5])
    ensures r.Some? ==> 5 < |r.value| <= |t| && r.value == t[..|r.value|] && r.value[..5] == "CURLE"
    ensures r.Some? ==> forall k :: 5 <= k < |r.value| ==> IsAliasChar(r.value[k])
    ensures r.Some? ==> |r.value| == |t| || !IsAliasChar(t[|r.value|])
  {
    if |t| >= 6 && t[..5] == "CURLE" && IsAliasChar(t[5]) then Some(t[..AliasEnd(t, 5)])
    else None
  }

  /**
   The record of one selected span, in the order Python computes it: the
   code group (`.group()` on no match raises AttributeError), its integer
   value, the alias (AttributeError when the pattern does not match), and
   the description (AttributeError when no paragraph follows).
   */
  function SpanRecord(span: CurlSpan): (r: Result<ErrorDetail>)
    ensures r.Success? <==>
      FindParenGroup(span.text, 0).Some? && CurlAlias(span.text).Some? && span.nextParagraph.Some?
    ensures r.Failure? ==> r.error == AttributeError
    ensures r.Success? ==>
      r.value.code == DigitsValue(GroupDigits(span.text, FindParenGroup(span.text, 0).value)) &&
      r.value.alias == CurlAlias(span.text).value &&
      r.value.description == span.nextParagraph.value
  {
    match FindParenGroup(span.text, 0)
    case None => Failure(AttributeError)
    case Some(p) =>
      PyIntOfDigits(GroupDigits(span.text, p));
      match PyInt(GroupDigits(span.text, p))
      case Failure(e) => Failure(e)
      case Success(code) =>
        var alias :- Present(CurlAlias(span.text));
        var description :- Present(span.nextParagraph);
        Success(ErrorDetail(code, alias, description))
  }

  /** `parse_curl_doc` on the spans of a fetched page, in document order. */
  function CurlRecords(spans: seq<CurlSpan>): Result<seq<ErrorDetail>>
  {
    MapAll(SelectedSpans(spans), SpanRecord)
  }

  /** The loop of `parse_curl_doc` over the selected spans. */
  method ParseCurlDoc(spans: seq<CurlSpan>) returns (r: Result<seq<ErrorDetail>>)
    ensures r == CurlRecords(spans)
  {
    var elements := SelectedSpans(spans);
    var errorCodes: seq<ErrorDetail> := [];
    for i := 0 to |elements|
      invariant MapAll(elements[..i], SpanRecord) == Success(errorCodes)
    {
      var record := SpanRecord(elements[i]);
      MapAllExtend(elements, i, SpanRecord, errorCodes);
      if record.Failure? {
        return Failure(record.error);
      }
      errorCodes := errorCodes + [record.value];
    }
    assert elements[..|elements|] == elements;
    return Success(errorCodes);
  }

  /**
   Every selected text has a parenthesised group of digits, so finding the
   code never fails on a selected span; the group found is the leftmost.
   */
  lemma {:induction false} SelectedHasCode(t: string)
    requires Selected(t)
    ensures FindParenGroup(t, 0).Some?
  {
    var u := WithoutFinalNewline(t);
    var p :| 6 <= p < |u| - 2 && u[p] == '(' && AllDigits(u[p + 1..|u| - 1]);
    assert forall k :: 0 <= k < |u| ==> t[k] == u[k];
    DigitEndAt(t, p + 1, |u| - 1);
    assert ParenGroupAt(t, p);
  }

  lemma {:induction false} DigitEndAt(t: string, i: nat, j: nat)
    requires i <= j <= |t|
    requires forall k :: i <= k < j ==> IsDigit(t[k])
    requires j < |t| ==> !IsDigit(t[j])
    ensures DigitEnd(t, i) == j
    decreases j - i
  {
    if i < j {
      DigitEndAt(t, i + 1, j);
    }
  }

  /**
   A selected span gives a record exactly when the character after "CURLE"
   is `_` or an upper-case letter and a paragraph follows; otherwise it
   raises AttributeError.
   */
  lemma SelectedSpanRecord(span: CurlSpan)
    requires Selected(span.text)
    ensures SpanRecord(span).Success? <==> IsAliasChar(span.text[5]) && span.nextParagraph.Some?
    ensures SpanRecord(span).Failure? ==> SpanRecord(span).error == AttributeError
    ensures SpanRecord(span).Success? ==>
      SpanRecord(span).value.alias == CurlAlias(span.text).value &&
      SpanRecord(span).value.description == span.nextParagraph.value
  {
    var t := span.text;
    SelectedHasCode(t);
    var p := FindParenGroup(t, 0).value;
    PyIntOfDigits(GroupDigits(t, p));
    assert WithoutFinalNewline(t)[..5] == t[..5];
  }

  /** The span text of an error: "CURLE", its name, "(", its number, ")", and what follows. */
  function CurlLabel(name: string, n: nat, rest: string): string
  {
    "CURLE" + name + "(" + ShowNat(n) + ")" + rest
  }

  /**
   A label whose name is one or more of `[_A-Z]`, followed by a paragraph,
   gives back its alias and its number, whatever follows the number: the
   alias stops at "(" and the leftmost parenthesised group is the number.
   */
  lemma LabelRecord(name: string, n: nat, rest: string, description: string)
    requires name != [] && forall k :: 0 <= k < |name| ==> IsAliasChar(name[k])
    ensures SpanRecord(CurlSpan(CurlLabel(name, n, rest), Some(description))) ==
      Success(ErrorDetail(n, "CURLE" + name, description))
  {
    var t := CurlLabel(name, n, rest);
    LabelAlias(name, n, rest);
    LabelCode(name, n, rest);
    DigitsValueShowNat(n);
    PyIntOfDigits(ShowNat(n));
  }

  lemma LabelAlias(name: string, n: nat, rest: string)
    requires name != [] && forall k :: 0 <= k < |name| ==> IsAliasChar(name[k])
    ensures CurlAlias(CurlLabel(name, n, rest)) == Some("CURLE" + name)
  {
    var t := CurlLabel(name, n, rest);
    var p := 5 + |name|;
    assert t == ("CURLE" + name) + ("(" + ShowNat(n) + ")" + rest);
    assert t[..5] == "CURLE";
    assert forall k :: 5 <= k < p ==> t[k] == name[k - 5];
    assert t[p] == '(';
    AliasEndAt(t, 5, p);
    assert t[..p] == "CURLE" + name;
  }

  lemma LabelCode(name: string, n: nat, rest: string)
    requires forall k :: 0 <= k < |name| ==> IsAliasChar(name[k])
    ensures var t := CurlLabel(name, n, rest);
      FindParenGroup(t, 0) == Some(5 + |name|) && GroupDigits(t, 5 + |name|) == ShowNat(n)
  {
    var t := CurlLabel(name, n, rest);
    var digits := ShowNat(n);
    var p := 5 + |name|;
    assert t == ("CURLE" + name) + (("(" + digits) + (")" + rest));
    assert t[p] == '(';
    assert forall k :: p + 1 <= k < p + 1 + |digits| ==> t[k] == digits[k - p - 1];
    assert t[p + 1 + |digits|] == ')';
    DigitEndAt(t, p + 1, p + 1 + |digits|);
    assert t[p + 1..p + 1 + |digits|] == digits;
    assert forall m :: 0 <= m < p ==> t[m] != '(' by {
      forall m | 0 <= m < p ensures t[m] != '(' {
        if m >= 5 { assert t[m] == name[m - 5]; }
        else { assert t[m] == "CURLE"[m]; }
      }
    }
    FindParenGroupAt(t, 0, p);
  }

  lemma {:induction false} AliasEndAt(t: string, i: nat, j: nat)
    requires i <= j <= |t|
    requires forall k :: i <= k < j ==> IsAliasChar(t[k])
    requires j < |t| ==> !IsAliasChar(t[j])
    ensures AliasEnd(t, i) == j
    decreases j - i
  {
    if i < j {
      AliasEndAt(t, i + 1, j);
    }
  }

  lemma {:induction false} FindParenGroupAt(t: string, i: nat, p: nat)
    requires i <= p < |t| && ParenGroupAt(t, p)
    requires forall m :: i <= m < p ==> !ParenGroupAt(t, m)
    ensures FindParenGroup(t, i) == Some(p)
    decreases p - i
  {
    if i < p {
      FindParenGroupAt(t, i + 1, p);
    }
  }

  /** A label with nothing after its number is selected. */
  lemma LabelSelected(name: string, n: nat)
    requires name != [] && forall k :: 0 <= k < |name| ==> IsAliasChar(name[k])
    ensures Selected(CurlLabel(name, n, ""))
  {
    var t := CurlLabel(name, n, "");
    var digits := ShowNat(n);
    var p := 5 + |name|;
    assert t == ("CURLE" + name) + ("(" + digits + ")");
    assert t[|t| - 1] == ')';
    assert WithoutFinalNewline(t) == t;
    assert t[..5] == "CURLE";
    assert forall k :: p + 1 <= k < |t| - 1 ==> t[k] == digits[k - p - 1];
    assert t[p + 1..|t| - 1] == digits;
    assert t[p] == '(';
    forall k | 0 <= k < |t| ensures t[k] != '\n' {
      if k < 5 { assert t[k] == "CURLE"[k]; }
      else if k < p { assert t[k] == name[k - 5]; }
      else if p < k < |t| - 1 { assert t[k] == digits[k - p - 1]; }
    }
  }

  /** The name in the page's example is made of `[_A-Z]`. */
  lemma UnsupportedProtocolName()
    ensures forall k :: 0 <= k < |"_UNSUPPORTED_PROTOCOL"| ==> IsAliasChar("_UNSUPPORTED_PROTOCOL"[k])
  {
  }

  /** The page's own example, `CURLE_UNSUPPORTED_PROTOCOL(1)`, is a label. */
  lemma UnsupportedProtocolLabel()
    ensures CurlLabel("_UNSUPPORTED_PROTOCOL", 1, "") == "CURLE_UNSUPPORTED_PROTOCOL(1)"
  {
    assert ShowNat(1) == "1";
  }

  /** That example is selected. */
  lemma UnsupportedProtocolSelected()
    ensures Selected("CURLE_UNSUPPORTED_PROTOCOL(1)")
  {
    UnsupportedProtocolName();
    LabelSelected("_UNSUPPORTED_PROTOCOL", 1);
    UnsupportedProtocolLabel();
  }

  /** Its record has code 1 and alias "CURLE" + "_UNSUPPORTED_PROTOCOL". */
  lemma UnsupportedProtocolRecord(description: string)
    ensures SpanRecord(CurlSpan(CurlLabel("_UNSUPPORTED_PROTOCOL", 1, ""), Some(description))) ==
      Success(ErrorDetail(1, "CURLE" + "_UNSUPPORTED_PROTOCOL", description))
  {
    UnsupportedProtocolName();
    LabelRecord("_UNSUPPORTED_PROTOCOL", 1, "", description);
  }

  /** A label followed by a second parenthesised number is still selected. */
  lemma TwoGroupsSelected(name: string, n: nat, m: nat)
    requires name != [] && forall k :: 0 <= k < |name| ==> IsAliasChar(name[k])
    ensures Selected(CurlLabel(name, n, "(" + ShowNat(m) + ")"))
  {
    var d1, d2 := ShowNat(n), ShowNat(m);
    var head := "CURLE" + name + "(" + d1 + ")";
    var t := head + ("(" + d2 + ")");
    assert CurlLabel(name, n, "(" + d2 + ")") == t;
    var p := |head|;
    assert t[|t| - 1] == ')';
    assert WithoutFinalNewline(t) == t;
    assert t[..5] == head[..5] == "CURLE";
    assert t[p] == '(';
    assert t[p + 1..|t| - 1] == d2;
    forall k | 0 <= k < |head| ensures head[k] != '\n' {
      if k < 5 { assert head[k] == "CURLE"[k]; }
      else if k < 5 + |name| { assert head[k] == name[k - 5]; }
      else if 5 + |name| < k < |head| - 1 { assert head[k] == d1[k - 6 - |name|]; }
    }
    forall k | 0 <= k < |t| ensures t[k] != '\n' {
      if k < p { assert t[k] == head[k]; }
      else if p < k < |t| - 1 { assert t[k] == d2[k - p - 1]; }
    }
  }

  /**
   Its code is the FIRST number: the code is the leftmost `(digits)` group,
   not the trailing one that the selection pattern ends with.
   */
  lemma LeftmostGroupIsCode(name: string, n: nat, m: nat, description: string)
    requires name != [] && forall k :: 0 <= k < |name| ==> IsAliasChar(name[k])
    ensures Selected(CurlLabel(name, n, "(" + ShowNat(m) + ")"))
    ensures SpanRecord(CurlSpan(CurlLabel(name, n, "(" + ShowNat(m) + ")"), Some(description))) ==
      Success(ErrorDetail(n, "CURLE" + name, description))
  {
    TwoGroupsSelected(name, n, m);
    LabelRecord(name, n, "(" + ShowNat(m) + ")", description);
  }

  /** The alias of a record is longer than "CURLE", starts with it, and is a prefix of its span's text. */
  lemma SpanRecordAlias(span: CurlSpan)
    requires SpanRecord(span).Success?
    ensures var alias := SpanRecord(span).value.alias;
      |alias| > 5 && alias[..5] == "CURLE" && alias == span.text[..|alias|]
  {
  }

  lemma SpanRecordsShape(selected: seq<CurlSpan>)
    ensures MapAll(selected, SpanRecord).Success? <==>
      forall i :: 0 <= i < |selected| ==> SpanRecord(selected[i]).Success?
    ensures MapAll(selected, SpanRecord).Success? ==>
      var rs := MapAll(selected, SpanRecord).value;
      |rs| == |selected| &&
      forall i :: 0 <= i < |rs| ==>
        rs[i] == SpanRecord(selected[i]).value &&
        |rs[i].alias| > 5 && rs[i].alias[..5] == "CURLE" &&
        rs[i].alias == selected[i].text[..|rs[i].alias|]
  {
    MapAllSuccess(selected, SpanRecord);
    if MapAll(selected, SpanRecord).Success? {
      var rs := MapAll(selected, SpanRecord).value;
      forall i | 0 <= i < |rs|
        ensures rs[i] == SpanRecord(selected[i]).value
        ensures |rs[i].alias| > 5 && rs[i].alias[..5] == "CURLE"
        ensures rs[i].alias == selected[i].text[..|rs[i].alias|]
      {
        SpanRecordAlias(selected[i]);
      }
    }
  }

  /**
   A page parses exactly when every selected span gives a record; there is
   then one record per selected span, in document order, each with an
   alias that starts with "CURLE" and is a prefix of its span's text.
   */
  lemma CurlRecordsShape(spans: seq<CurlSpan>, selected: seq<CurlSpan>)
    requires selected == SelectedSpans(spans)
    ensures CurlRecords(spans).Success? <==>
      forall i :: 0 <= i < |selected| ==> SpanRecord(selected[i]).Success?
    ensures CurlRecords(spans).Success? ==>
      var rs := CurlRecords(spans).value;
      |rs| == |selected| &&
      forall i :: 0 <= i < |rs| ==>
        rs[i] == SpanRecord(selected[i]).value &&
        |rs[i].alias| > 5 && rs[i].alias[..5] == "CURLE" &&
        rs[i].alias == selected[i].text[..|rs[i].alias|]
  {
    SpanRecordsShape(selected);
  }
}
