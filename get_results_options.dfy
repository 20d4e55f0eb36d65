/**
  `GetResultsOptions`: which columns and which range of simulation runs a results query asks for,
  and how those options become query parameters of the request.
*/
module ResultsQuery {
  import opened Scalarm
  import opened Rest

  /** The option fields as a value. */
  datatype Options = Options(
    withIndex: bool, withParams: bool, withMoes: bool, withStatus: bool,
    minIndex: Int32, maxIndex: Int32)

  /** `boolToQueryValue`. */
  function BoolToQueryValue(value: bool): (r: string)
    ensures r == "1" <==> value
    ensures r == "0" <==> !value
  {
    if value then "1" else "0"
  }

  predicate IsDigit(c: char)
  {
    48 <= c as int <= 57
  }

  /** `int.ToString()` on a non-negative number: its decimal digits, most significant first. */
  function DecimalString(n: nat): string
  {
    if n < 10 then [(48 + n) as char]
    else DecimalString(n / 10) + [(48 + n % 10) as char]
  }

  /** The number a string of decimal digits denotes. */
  function ParseDecimal(s: string): nat
    requires forall i :: 0 <= i < |s| ==> IsDigit(s[i])
  {
    if s == [] then 0
    else
      assert IsDigit(s[|s| - 1]);
      ParseDecimal(s[..|s| - 1]) * 10 + (s[|s| - 1] as int - 48)
  }

  /** The decimal rendering is all digits, has no leading zero, and reads back as the same number. */
  lemma {:induction false} DecimalStringRoundTrip(n: nat)
    ensures DecimalString(n) != []
    ensures forall i :: 0 <= i < |DecimalString(n)| ==> IsDigit(DecimalString(n)[i])
    ensures n >= 1 ==> DecimalString(n)[0] != '0'
    ensures ParseDecimal(DecimalString(n)) == n
  {
    if n >= 10 {
      DecimalStringRoundTrip(n / 10);
      var s := DecimalString(n);
      assert s[..|s| - 1] == DecimalString(n / 10);
      assert s[0] == DecimalString(n / 10)[0];
    }
  }

  /** The query parameters `AddUrlSegments` adds, in the order it adds them. */
  function UrlSegments(o: Options): seq<Parameter>
  {
    FlagSegments(o) + BoundSegment("min_index", o.minIndex) + BoundSegment("max_index", o.maxIndex)
  }

  function FlagSegments(o: Options): seq<Parameter>
  {
    [ Parameter(QueryString, "with_index", BoolToQueryValue(o.withIndex)),
      Parameter(QueryString, "with_params", BoolToQueryValue(o.withParams)),
      Parameter(QueryString, "with_moes", BoolToQueryValue(o.withMoes)),
      Parameter(QueryString, "with_status", BoolToQueryValue(o.withStatus)) ]
  }

  /** An index bound is sent only when it is at least 1. */
  function BoundSegment(name: string, bound: Int32): seq<Parameter>
  {
    if bound >= 1 then [Parameter(QueryString, name, DecimalString(bound))] else []
  }

  predicate Emits(ps: seq<Parameter>, name: string)
  {
    exists i :: 0 <= i < |ps| && ps[i].name == name
  }

  /** The four flags come first, in a fixed order, each as "1" or "0"; at most two bounds follow. */
  lemma FlagsComeFirst(o: Options)
    ensures var ps := UrlSegments(o);
      && 4 <= |ps| <= 6
      && (forall i :: 0 <= i < |ps| ==> ps[i].kind == QueryString)
      && ps[0].name == "with_index" && (ps[0].value == "1" <==> o.withIndex)
      && ps[1].name == "with_params" && (ps[1].value == "1" <==> o.withParams)
      && ps[2].name == "with_moes" && (ps[2].value == "1" <==> o.withMoes)
      && ps[3].name == "with_status" && (ps[3].value == "1" <==> o.withStatus)
      && (forall i :: 0 <= i < 4 ==> ps[i].value in {"0", "1"})
  {
  }

  /** A parameter is in a concatenation iff it is in one of its parts. */
  lemma EmitsAppend(a: seq<Parameter>, b: seq<Parameter>, name: string)
    ensures Emits(a + b, name) <==> Emits(a, name) || Emits(b, name)
  {
    var c := a + b;
    if Emits(c, name) {
      var i :| 0 <= i < |c| && c[i].name == name;
      if i >= |a| { assert b[i - |a|] == c[i]; }
    }
    if Emits(b, name) {
      var i :| 0 <= i < |b| && b[i].name == name;
      assert c[i + |a|] == b[i];
    }
    if Emits(a, name) {
      var i :| 0 <= i < |a| && a[i].name == name;
      assert c[i] == a[i];
    }
  }

  /** The flags never carry a bound. */
  lemma FlagsEmitNoBound(o: Options)
    ensures !Emits(FlagSegments(o), "min_index") && !Emits(FlagSegments(o), "max_index")
  {
    var f := FlagSegments(o);
    forall i | 0 <= i < |f| ensures f[i].name != "min_index" && f[i].name != "max_index" {
      assert f[i].name[0] == 'w';
    }
  }

  /** A bound segment carries its own name iff the bound is at least 1, and no other name. */
  lemma BoundEmits(name: string, other: string, bound: Int32)
    requires name != other
    ensures Emits(BoundSegment(name, bound), name) <==> bound >= 1
    ensures !Emits(BoundSegment(name, bound), other)
  {
    if bound >= 1 {
      assert BoundSegment(name, bound)[0].name == name;
    }
  }

  /**
    min_index is sent exactly when MinIndex >= 1 (zero disables it too, not only negative values),
    as a decimal string that denotes MinIndex; likewise max_index, which always comes last.
  */
  lemma {:induction false} BoundsEmittedIff(o: Options)
    ensures Emits(UrlSegments(o), "min_index") <==> o.minIndex >= 1
    ensures Emits(UrlSegments(o), "max_index") <==> o.maxIndex >= 1
    ensures o.minIndex >= 1 ==> var p := UrlSegments(o)[4];
      p.name == "min_index" && (forall i :: 0 <= i < |p.value| ==> IsDigit(p.value[i])) && ParseDecimal(p.value) == o.minIndex
    ensures o.maxIndex >= 1 ==> var p := UrlSegments(o)[|UrlSegments(o)| - 1];
      p.name == "max_index" && (forall i :: 0 <= i < |p.value| ==> IsDigit(p.value[i])) && ParseDecimal(p.value) == o.maxIndex
  {
    var f, mn, mx := FlagSegments(o), BoundSegment("min_index", o.minIndex), BoundSegment("max_index", o.maxIndex);
    var ps := UrlSegments(o);
    assert ps == (f + mn) + mx;
    assert "min_index" != "max_index" by { assert "min_index"[1] != "max_index"[1]; }
    FlagsEmitNoBound(o);
    BoundEmits("min_index", "max_index", o.minIndex);
    BoundEmits("max_index", "min_index", o.maxIndex);
    EmitsAppend(f, mn, "min_index");
    EmitsAppend(f, mn, "max_index");
    EmitsAppend(f + mn, mx, "min_index");
    EmitsAppend(f + mn, mx, "max_index");
    if o.minIndex >= 1 {
      DecimalStringRoundTrip(o.minIndex);
      assert ps[4] == mn[0];
    }
    if o.maxIndex >= 1 {
      DecimalStringRoundTrip(o.maxIndex);
      assert ps[|ps| - 1] == mx[0];
    }
  }

  /** A query parameter object with the source's defaults. */
  class GetResultsOptions {
    var withIndex: bool
    var withParams: bool
    var withMoes: bool
    var withStatus: bool
    var minIndex: Int32   // a value below 1 disables the bound
    var maxIndex: Int32   // a value below 1 disables the bound

    /** Default options: no index column, params, MoEs and status included, no bounds. */
    constructor ()
      ensures !withIndex && withParams && withMoes && withStatus
      ensures minIndex == -1 && maxIndex == -1
    {
      withIndex := false;
      withParams := true;
      withMoes := true;
      withStatus := true;
      minIndex := -1;
      maxIndex := -1;
    }

    function Current(): (o: Options)
      reads this
    {
      Options(withIndex, withParams, withMoes, withStatus, minIndex, maxIndex)
    }

    /** Appends the query parameters to the request and changes no option field. */
    method AddUrlSegments(request: RestRequest)
      modifies request
      ensures request.resource == old(request.resource) && request.httpMethod == old(request.httpMethod)
      ensures request.parameters == old(request.parameters) + UrlSegments(Current())
    {
      ghost var before := request.parameters;
      AddFlags(request, Current());
      AddBound(request, "min_index", minIndex);
      AddBound(request, "max_index", maxIndex);
      assert request.parameters == before + FlagSegments(Current())
        + BoundSegment("min_index", minIndex) + BoundSegment("max_index", maxIndex);
    }
  }

  /** The four `AddQueryParameter` calls for the flags. */
  method AddFlags(request: RestRequest, o: Options)
    modifies request
    ensures request.resource == old(request.resource) && request.httpMethod == old(request.httpMethod)
    ensures request.parameters == old(request.parameters) + FlagSegments(o)
  {
    request.AddQueryParameter("with_index", BoolToQueryValue(o.withIndex));
    request.AddQueryParameter("with_params", BoolToQueryValue(o.withParams));
    request.AddQueryParameter("with_moes", BoolToQueryValue(o.withMoes));
    request.AddQueryParameter("with_status", BoolToQueryValue(o.withStatus));
  }

  /** One guarded `AddQueryParameter` call for an index bound. */
  method AddBound(request: RestRequest, name: string, bound: Int32)
    modifies request
    ensures request.resource == old(request.resource) && request.httpMethod == old(request.httpMethod)
    ensures request.parameters == old(request.parameters) + BoundSegment(name, bound)
  {
    if bound >= 1 {
      request.AddQueryParameter(name, DecimalString(bound));
    }
  }

  /** With default options exactly four parameters are sent: with_index=0 and the other three flags 1. */
  method DefaultQuery(request: RestRequest)
    modifies request
    ensures request.parameters == old(request.parameters) + [
      Parameter(QueryString, "with_index", "0"), Parameter(QueryString, "with_params", "1"),
      Parameter(QueryString, "with_moes", "1"), Parameter(QueryString, "with_status", "1")]
  {
    var options := new GetResultsOptions();
    options.AddUrlSegments(request);
  }
}
