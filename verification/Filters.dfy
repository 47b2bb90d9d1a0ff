/** Key filters: what they match, and their dictionary form. */
module Filters {
  import opened Wrappers
  import opened Segments

  const WILDCARD := Str("*")

  datatype Filter =
    | Prefix(prefix: Key)
    | Suffix(suffix: Key)
    | Length(length: int)
    | Wildcard(pattern: Key)
    | And(filters: seq<Filter>)
    | Or(filters: seq<Filter>)
    | PassAll
    | PassNone

  predicate Matches(f: Filter, key: Key) {
    match f
    case Prefix(prefix) => |key| >= |prefix| && key[..|prefix|] == prefix
    case Suffix(suffix) => |key| >= |suffix| && (suffix == [] || key[|key| - |suffix|..] == suffix)
    case Length(length) => |key| == length
    case Wildcard(pattern) =>
      |key| == |pattern| && forall i :: 0 <= i < |key| ==> pattern[i] == WILDCARD || key[i] == pattern[i]
    case And(filters) => forall i :: 0 <= i < |filters| ==> Matches(filters[i], key)
    case Or(filters) => exists i :: 0 <= i < |filters| && Matches(filters[i], key)
    case PassAll => true
    case PassNone => false
  }

  // ---------------------------------------------------------------------------
  // Dictionary form
  // ---------------------------------------------------------------------------

  /**
   A dictionary as `to_dict` makes it: the `type` entry and what the type carries; `listed` if there is a
   list of filters.
   */
  datatype Dict = Dict(typ: string, keys: Option<Key>, number: Option<int>, listed: bool, children: seq<Dict>)

  function ToDict(f: Filter): Dict
  {
    match f
    case Prefix(prefix) => Dict("prefix", Some(prefix), None, false, [])
    case Suffix(suffix) => Dict("suffix", Some(suffix), None, false, [])
    case Length(length) => Dict("length", None, Some(length), false, [])
    case Wildcard(pattern) => Dict("wildcard", Some(pattern), None, false, [])
    case And(filters) => Dict("and", None, None, true,
        seq(|filters|, i requires 0 <= i < |filters| => ToDict(filters[i])))
    case Or(filters) => Dict("or", None, None, true,
        seq(|filters|, i requires 0 <= i < |filters| => ToDict(filters[i])))
    case PassAll => Dict("pass_all", None, None, false, [])
    case PassNone => Dict("pass_none", None, None, false, [])
  }

  /** Rebuild a filter; an unknown type is a `ValueError`, a missing entry a `KeyError`. */
  function FromDict(d: Dict): Result<Filter> {
    if d.typ == "prefix" then (if d.keys.Some? then Ok(Prefix(d.keys.value)) else Err(KeyError))
    else if d.typ == "suffix" then (if d.keys.Some? then Ok(Suffix(d.keys.value)) else Err(KeyError))
    else if d.typ == "length" then (if d.number.Some? then Ok(Length(d.number.value)) else Err(KeyError))
    else if d.typ == "wildcard" then (if d.keys.Some? then Ok(Wildcard(d.keys.value)) else Err(KeyError))
    else if d.typ == "pass_all" then Ok(PassAll)
    else if d.typ == "pass_none" then Ok(PassNone)
    else if d.typ == "and" || d.typ == "or" then
      if !d.listed then Err(KeyError)
      else
        var ds := d.children;
        match All(seq(|ds|, i requires 0 <= i < |ds| => FromDict(ds[i])))
        case Err(error) => Err(error)
        case Ok(filters) => Ok(if d.typ == "and" then And(filters) else Or(filters))
    else Err(ValueError)
  }

  /** All the results, or the first error. */
  function All(rs: seq<Result<Filter>>): Result<seq<Filter>> {
    if rs == [] then Ok([])
    else if rs[0].Err? then Err(rs[0].error)
    else match All(rs[1..])
      case Err(error) => Err(error)
      case Ok(rest) => Ok([rs[0].value] + rest)
  }

  lemma {:induction false} AllOk(rs: seq<Result<Filter>>, fs: seq<Filter>)
    requires |rs| == |fs| && forall i :: 0 <= i < |fs| ==> rs[i] == Ok(fs[i])
    ensures All(rs) == Ok(fs)
  {
    if fs != [] {
      AllOk(rs[1..], fs[1..]);
      assert fs == [fs[0]] + fs[1..];
    }
  }

  /** A filter survives the trip through its dictionary. */
  lemma {:induction false} DictRoundTrip(f: Filter)
    ensures FromDict(ToDict(f)) == Ok(f)
  {
    if f.And? || f.Or? {
      var ds := ToDict(f).children;
      forall i | 0 <= i < |ds| ensures FromDict(ds[i]) == Ok(f.filters[i]) {
        DictRoundTrip(f.filters[i]);
      }
      AllOk(seq(|ds|, i requires 0 <= i < |ds| => FromDict(ds[i])), f.filters);
    }
  }

  function TypeOf(f: Filter): string {
    match f
    case Prefix(_) => "prefix"
    case Suffix(_) => "suffix"
    case Length(_) => "length"
    case Wildcard(_) => "wildcard"
    case And(_) => "and"
    case Or(_) => "or"
    case PassAll => "pass_all"
    case PassNone => "pass_none"
  }

  /** The dictionary says the filter: the type, and the entries the type needs; others do not matter. */
  predicate Says(d: Dict, f: Filter) {
    && d.typ == TypeOf(f)
    && (f.Prefix? ==> d.keys == Some(f.prefix))
    && (f.Suffix? ==> d.keys == Some(f.suffix))
    && (f.Wildcard? ==> d.keys == Some(f.pattern))
    && (f.Length? ==> d.number == Some(f.length))
    && (f.And? || f.Or? ==>
          && d.listed && |d.children| == |f.filters|
          && forall i :: 0 <= i < |f.filters| ==> Says(d.children[i], f.filters[i]))
  }

  /** A dictionary is read as a filter exactly if it says that filter. */
  lemma {:induction false} ReadIffSaid(d: Dict, f: Filter)
    ensures FromDict(d) == Ok(f) <==> Says(d, f)
    decreases d
  {
    if (d.typ == "and" || d.typ == "or") && d.listed {
      var ds := d.children;
      var rs := seq(|ds|, i requires 0 <= i < |ds| => FromDict(ds[i]));
      if (f.And? || f.Or?) && |f.filters| == |rs| {
        forall i | 0 <= i < |rs| ensures rs[i] == Ok(f.filters[i]) <==> Says(d.children[i], f.filters[i]) {
          ReadIffSaid(d.children[i], f.filters[i]);
        }
      }
      AllReads(rs);
      if All(rs).Ok? {
        forall i | 0 <= i < |rs| ensures Says(d.children[i], rs[i].value) {
          ReadIffSaid(d.children[i], rs[i].value);
        }
      }
      if (f.And? || f.Or?) && |f.filters| == |rs| && forall i :: 0 <= i < |rs| ==> rs[i] == Ok(f.filters[i]) {
        AllOk(rs, f.filters);
      }
    }
  }

  /** All results are their values; otherwise the first error comes back. */
  lemma {:induction false} AllReads(rs: seq<Result<Filter>>)
    ensures All(rs).Ok? <==> forall i :: 0 <= i < |rs| ==> rs[i].Ok?
    ensures All(rs).Ok? ==> |All(rs).value| == |rs| && forall i :: 0 <= i < |rs| ==> rs[i] == Ok(All(rs).value[i])
    ensures forall i :: 0 <= i < |rs| && rs[i].Err? && (forall j :: 0 <= j < i ==> rs[j].Ok?) ==>
              All(rs) == Err(rs[i].error)
  {
    if rs != [] && rs[0].Ok? {
      AllReads(rs[1..]);
      assert rs == [rs[0]] + rs[1..];
    }
  }

  predicate Known(typ: string) {
    typ in {"prefix", "suffix", "length", "wildcard", "and", "or", "pass_all", "pass_none"}
  }

  /** Constituent `i` is the first that cannot be read. */
  predicate FirstUnread(ds: seq<Dict>, i: int) {
    0 <= i < |ds| && FromDict(ds[i]).Err? && forall j :: 0 <= j < i ==> FromDict(ds[j]).Ok?
  }

  /** How reading fails: an unknown type, a missing entry, or as the first constituent that cannot be read. */
  lemma ReadFails(d: Dict)
    ensures !Known(d.typ) ==> FromDict(d) == Err(ValueError)
    ensures d.typ in {"prefix", "suffix", "wildcard"} && d.keys.None? ==> FromDict(d) == Err(KeyError)
    ensures d.typ == "length" && d.number.None? ==> FromDict(d) == Err(KeyError)
    ensures d.typ in {"and", "or"} && !d.listed ==> FromDict(d) == Err(KeyError)
    ensures d.typ in {"and", "or"} && d.listed ==>
              forall i :: FirstUnread(d.children, i) ==> FromDict(d) == Err(FromDict(d.children[i]).error)
  {
    var ds := d.children;
    var rs := seq(|ds|, i requires 0 <= i < |ds| => FromDict(ds[i]));
    AllReads(rs);
    forall i | FirstUnread(ds, i) && d.typ in {"and", "or"} && d.listed
      ensures FromDict(d) == Err(FromDict(ds[i]).error)
    {
      assert rs[i].Err? && forall j :: 0 <= j < i ==> rs[j].Ok?;
      assert All(rs) == Err(rs[i].error);
    }
  }
}
