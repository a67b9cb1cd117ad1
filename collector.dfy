/**
 The collector: for one source, parse every page in the order its URLs are
 listed and concatenate the records into one ErrorDetails value, the value
 that is then written out as JSON. A page that fails to parse aborts the
 whole collection, so nothing is written for that source.
 */
module Collector {
  import opened Records
  import Windows
  import Linux
  import Curl

  /** The concatenation of the per-page record lists, in page order. */
  function Flatten<T>(xss: seq<seq<T>>): seq<T>
  {
    if xss == [] then [] else Flatten(xss[..|xss| - 1]) + xss[|xss| - 1]
  }

  /** The number of records over all pages. */
  function TotalLength<T>(xss: seq<seq<T>>): nat
  {
    if xss == [] then 0 else TotalLength(xss[..|xss| - 1]) + |xss[|xss| - 1]|
  }

  /** `collect_error_codes` on the fetched pages of one source, up to the JSON write. */
  function Collected<P>(pages: seq<P>, parser: P -> Result<seq<ErrorDetail>>): Result<ErrorDetails>
  {
    match MapAll(pages, parser)
    case Failure(e) => Failure(e)
    case Success(parsed) => Success(ErrorDetails(Flatten(parsed)))
  }

  /**
   The loop of `collect_error_codes`: an empty ErrorDetails is extended
   with each page's records in turn.
   */
  method CollectErrorCodes<P>(pages: seq<P>, parser: P -> Result<seq<ErrorDetail>>)
    returns (r: Result<ErrorDetails>)
    ensures r == Collected(pages, parser)
  {
    var errorCodes := ErrorDetails([]);
    ghost var parsed: seq<seq<ErrorDetail>> := [];
    for i := 0 to |pages|
      invariant MapAll(pages[..i], parser) == Success(parsed)
      invariant errorCodes.errors == Flatten(parsed)
    {
      var parsedCodes := parser(pages[i]);
      MapAllExtend(pages, i, parser, parsed);
      if parsedCodes.Failure? {
        return Failure(parsedCodes.error);
      }
      FlattenSnoc(parsed, parsedCodes.value);
      errorCodes := errorCodes.(errors := errorCodes.errors + parsedCodes.value);
      parsed := parsed + [parsedCodes.value];
    }
    assert pages[..|pages|] == pages;
    return Success(errorCodes);
  }

  /** `collect_windows_system_error_codes`: the ten pages of Windows system errors. */
  method CollectWindowsSystemErrorCodes(pages: seq<Windows.WindowsPage>) returns (r: Result<ErrorDetails>)
    ensures r == Collected(pages, Windows.WindowsRecords)
  {
    r := CollectErrorCodes(pages, Windows.WindowsRecords);
  }

  /** `collect_linux_system_error_codes`: the one errno page. */
  method CollectLinuxSystemErrorCodes(pages: seq<Linux.LinuxPage>) returns (r: Result<ErrorDetails>)
    ensures r == Collected(pages, Linux.LinuxRecords)
  {
    r := CollectErrorCodes(pages, Linux.LinuxRecords);
  }

  /** `collect_curl_error_codes`: the spans of the one libcurl error page. */
  method CollectCurlErrorCodes(pages: seq<seq<Curl.CurlSpan>>) returns (r: Result<ErrorDetails>)
    ensures r == Collected(pages, Curl.CurlRecords)
  {
    r := CollectErrorCodes(pages, Curl.CurlRecords);
  }

  lemma {:induction false} FlattenAppend<T>(a: seq<seq<T>>, b: seq<seq<T>>)
    ensures Flatten(a + b) == Flatten(a) + Flatten(b)
    decreases |b|
  {
    if b == [] {
      assert a + b == a;
    } else {
      var b' := b[..|b| - 1];
      assert (a + b)[..|a + b| - 1] == a + b';
      FlattenAppend(a, b');
    }
  }

  lemma FlattenSnoc<T>(xss: seq<seq<T>>, xs: seq<T>)
    ensures Flatten(xss + [xs]) == Flatten(xss) + xs
  {
    assert (xss + [xs])[..|xss|] == xss;
  }

  lemma {:induction false} FlattenLength<T>(xss: seq<seq<T>>)
    ensures |Flatten(xss)| == TotalLength(xss)
  {
    if xss != [] {
      FlattenLength(xss[..|xss| - 1]);
    }
  }

  /**
   The records of page k sit in the output right after those of the pages
   before it, in their own order: the output is page 0's records, then page
   1's, and so on.
   */
  lemma FlattenAt<T>(xss: seq<seq<T>>, k: nat, j: nat)
    requires k < |xss| && j < |xss[k]|
    ensures TotalLength(xss[..k]) + j < |Flatten(xss)|
    ensures Flatten(xss)[TotalLength(xss[..k]) + j] == xss[k][j]
  {
    assert xss == xss[..k] + [xss[k]] + xss[k + 1..];
    FlattenAppend(xss[..k] + [xss[k]], xss[k + 1..]);
    FlattenAppend(xss[..k], [xss[k]]);
    assert Flatten([xss[k]]) == xss[k] by {
      assert [xss[k]][..0] == [];
    }
    FlattenLength(xss[..k]);
  }

  /**
   Collecting succeeds exactly when every page parses; the output is then
   the concatenation of the pages' record lists, one list per page in URL
   order (FlattenAt places each record), as many records as all pages hold
   together. An empty URL list gives an empty list.
   */
  lemma CollectedOrder<P>(pages: seq<P>, parser: P -> Result<seq<ErrorDetail>>)
    ensures pages == [] ==> Collected(pages, parser) == Success(ErrorDetails([]))
    ensures Collected(pages, parser).Success? <==>
      forall i :: 0 <= i < |pages| ==> parser(pages[i]).Success?
    ensures Collected(pages, parser).Success? ==>
      var parsed := MapAll(pages, parser).value;
      Collected(pages, parser).value.errors == Flatten(parsed) &&
      |Collected(pages, parser).value.errors| == TotalLength(parsed) &&
      |parsed| == |pages| &&
      forall i :: 0 <= i < |pages| ==> parsed[i] == parser(pages[i]).value
  {
    MapAllSuccess(pages, parser);
    if MapAll(pages, parser).Success? {
      FlattenLength(MapAll(pages, parser).value);
    }
  }

  /** A page that fails stops the collection with the first failing page's error. */
  lemma CollectedFailure<P>(pages: seq<P>, parser: P -> Result<seq<ErrorDetail>>)
    ensures Collected(pages, parser).Failure? ==>
      var k := FirstFailure(pages, parser);
      k.Some? && Collected(pages, parser).error == parser(pages[k.value]).error
  {
    MapAllFailure(pages, parser);
  }

  /** Collecting two lists of pages one after the other is collecting their concatenation. */
  lemma {:induction false} CollectedAppend<P>(a: seq<P>, b: seq<P>, parser: P -> Result<seq<ErrorDetail>>)
    requires Collected(a, parser).Success? && Collected(b, parser).Success?
    ensures Collected(a + b, parser) ==
      Success(ErrorDetails(Collected(a, parser).value.errors + Collected(b, parser).value.errors))
    decreases |b|
  {
    if b == [] {
      assert a + b == a;
      var none: seq<seq<ErrorDetail>> := [];
      assert MapAll(b, parser) == Success(none);
      assert Collected(b, parser).value.errors == [];
      assert Collected(a, parser).value.errors + [] == Collected(a, parser).value.errors;
    } else {
      var b' := b[..|b| - 1];
      var x := b[|b| - 1];
      assert b == b' + [x];
      assert a + b == (a + b') + [x];
      MapAllSnoc(b', x, parser);
      assert MapAll(b', parser).Success? && parser(x).Success?;
      var pb' := MapAll(b', parser).value;
      var px := parser(x).value;
      var ea := Collected(a, parser).value.errors;
      CollectedAppend(a, b', parser);
      MapAllSnoc(a + b', x, parser);
      var pab' := MapAll(a + b', parser).value;
      assert Flatten(pab') == ea + Flatten(pb');
      assert MapAll(a + b, parser) == Success(pab' + [px]);
      FlattenSnoc(pab', px);
      FlattenSnoc(pb', px);
      assert Collected(b, parser).value.errors == Flatten(pb') + px;
      assert ea + Flatten(pb') + px == ea + (Flatten(pb') + px);
      assert Collected(a + b, parser) == Success(ErrorDetails(ea + (Flatten(pb') + px)));
    }
  }
}
