/**
  The dotted-path traversal of `JsonTraverseParser`.

  A path such as `"items.0.volumeInfo.title"` is split at the dots and
  applied one segment at a time to a working list of JSON values: a segment
  that is a decimal index picks that element of every list (or that
  character of every string); any other segment, or an index that picks
  nothing new, looks the segment up as a key in every object, after one
  level of nested lists has been spliced in. At the end a one-element list
  is unwrapped and an empty one becomes `null`.
 */
module JsonParser {
  import opened Text

  /** A value as `json.loads` gives it back. */
  datatype Json =
    | Null
    | Bool(b: bool)
    | Num(n: int)
    | Str(s: string)
    | Arr(items: seq<Json>)
    | Obj(fields: map<string, Json>)

  /** Python truthiness of a JSON value (`if value:`). */
  predicate Truthy(v: Json)
  {
    match v
    case Null => false
    case Bool(b) => b
    case Num(n) => n != 0
    case Str(s) => s != ""
    case Arr(items) => items != []
    case Obj(fields) => fields != map[]
  }

  // ---------------------------------------------------------------------
  // is_valid_index

  predicate IsDigit(c: char)
  {
    '0' <= c <= '9'
  }

  predicate AllDigits(s: string)
  {
    forall i :: 0 <= i < |s| ==> IsDigit(s[i])
  }

  /** The whole of `s` matches `0|[1-9][0-9]*`. */
  predicate IsCanonical(s: string)
  {
    s == "0" || (|s| >= 1 && '1' <= s[0] <= '9' && AllDigits(s))
  }

  /** `re.match(r"^(0|[1-9][0-9]*)$", s)`. Python's `$` also matches just
      before a newline that ends the string, so one trailing "\n" passes. */
  predicate IsValidIndex(s: string)
  {
    IsCanonical(s) || (|s| >= 1 && s[|s| - 1] == '\n' && IsCanonical(s[..|s| - 1]))
  }

  function DigitValue(c: char): nat
    requires IsDigit(c)
  {
    c as int - '0' as int
  }

  function DigitChar(d: nat): char
    requires d < 10
  {
    ('0' as int + d) as char
  }

  /** The number a string of decimal digits denotes. */
  function DecimalValue(s: string): nat
    requires AllDigits(s)
  {
    if s == [] then 0 else 10 * DecimalValue(s[..|s| - 1]) + DigitValue(s[|s| - 1])
  }

  /** `int(s)` for a string that passed `is_valid_index`; `int` ignores the
      trailing newline. */
  function IndexValue(s: string): nat
    requires IsValidIndex(s)
  {
    if IsCanonical(s) then DecimalValue(s) else DecimalValue(s[..|s| - 1])
  }

  /** The decimal numeral of `n` without leading zeros (`str(n)`). */
  function DecimalString(n: nat): string
  {
    if n < 10 then [DigitChar(n)] else DecimalString(n / 10) + [DigitChar(n % 10)]
  }

  lemma {:induction false} DecimalStringIsCanonical(n: nat)
    ensures IsCanonical(DecimalString(n))
    ensures DecimalValue(DecimalString(n)) == n
  {
    if n >= 10 {
      DecimalStringIsCanonical(n / 10);
      var s := DecimalString(n);
      assert s[..|s| - 1] == DecimalString(n / 10);
      assert s[0] == DecimalString(n / 10)[0];
    }
  }

  /** A canonical numeral that does not start with 0 stands for a positive number. */
  lemma {:induction false} LeadingDigitPositive(s: string)
    requires |s| >= 1 && '1' <= s[0] <= '9' && AllDigits(s)
    ensures DecimalValue(s) >= 1
  {
    if |s| > 1 {
      LeadingDigitPositive(s[..|s| - 1]);
    }
  }

  lemma {:induction false} CanonicalIsDecimalString(s: string)
    requires IsCanonical(s)
    ensures DecimalString(DecimalValue(s)) == s
  {
    if |s| > 1 {
      var t := s[..|s| - 1];
      assert IsCanonical(t);
      LeadingDigitPositive(t);
      CanonicalIsDecimalString(t);
      var v := DecimalValue(s);
      assert v == 10 * DecimalValue(t) + DigitValue(s[|s| - 1]);
      assert v / 10 == DecimalValue(t) && v % 10 == DigitValue(s[|s| - 1]);
    }
  }

  /** `is_valid_index` accepts exactly the numerals `str(n)` of the natural
      numbers, each optionally followed by one newline, and `int` reads back n. */
  lemma ValidIndexIsNumeral(s: string)
    ensures IsValidIndex(s) <==>
      exists n: nat :: s == DecimalString(n) || s == DecimalString(n) + "\n"
    ensures forall n: nat :: IsValidIndex(DecimalString(n)) && IndexValue(DecimalString(n)) == n
  {
    forall n: nat ensures IsValidIndex(DecimalString(n)) && IndexValue(DecimalString(n)) == n {
      DecimalStringIsCanonical(n);
    }
    if IsValidIndex(s) {
      var t := if IsCanonical(s) then s else s[..|s| - 1];
      CanonicalIsDecimalString(t);
      var n := DecimalValue(t);
      assert s == DecimalString(n) || s == DecimalString(n) + "\n";
    } else {
      forall n: nat ensures s != DecimalString(n) && s != DecimalString(n) + "\n" {
        DecimalStringIsCanonical(n);
        var d := DecimalString(n);
        assert (d + "\n")[..|d + "\n"| - 1] == d;
      }
    }
  }

  // ---------------------------------------------------------------------
  // reduce_list, reduce_dict, flatten

  /** `v[i]` succeeds: `v` is a list or a string with more than `i` elements. */
  predicate IndexableAt(v: Json, i: nat)
  {
    (v.Arr? && i < |v.items|) || (v.Str? && i < |v.s|)
  }

  /** `v[i]`: an element of a list, or a one-character string of a string. */
  function At(v: Json, i: nat): Json
    requires IndexableAt(v, i)
  {
    if v.Arr? then v.items[i] else Str([v.s[i]])
  }

  /** What `reduce_list` keeps of `v`. */
  function ListPick(v: Json, i: nat): seq<Json>
  {
    if IndexableAt(v, i) then [At(v, i)] else []
  }

  /** `v[key]` succeeds: `v` is an object holding `key`. */
  predicate HasKey(v: Json, key: string)
  {
    v.Obj? && key in v.fields
  }

  /** What `reduce_dict` keeps of `v`. */
  function DictPick(v: Json, key: string): seq<Json>
  {
    if HasKey(v, key) then [v.fields[key]] else []
  }

  /** What `flatten` makes of `v`: a list is spliced in, anything else kept. */
  function FlatPiece(v: Json): seq<Json>
  {
    if v.Arr? then v.items else [v]
  }

  /** The result of `reduce_list(reduced, i)`. */
  function ListReduced(reduced: seq<Json>, i: nat): (r: seq<Json>)
    ensures |r| <= |reduced|
  {
    if reduced == [] then []
    else ListReduced(reduced[..|reduced| - 1], i) + ListPick(reduced[|reduced| - 1], i)
  }

  /** The result of `reduce_dict(reduced, key)`. */
  function DictReduced(reduced: seq<Json>, key: string): (r: seq<Json>)
    ensures |r| <= |reduced|
  {
    if reduced == [] then []
    else DictReduced(reduced[..|reduced| - 1], key) + DictPick(reduced[|reduced| - 1], key)
  }

  /** The result of `flatten(reduced)`. */
  function Flattened(reduced: seq<Json>): seq<Json>
  {
    if reduced == [] then []
    else Flattened(reduced[..|reduced| - 1]) + FlatPiece(reduced[|reduced| - 1])
  }

  /** The number of lists among `reduced`, and the total of their lengths. */
  function ListCount(reduced: seq<Json>): nat
  {
    if reduced == [] then 0 else (if reduced[0].Arr? then 1 else 0) + ListCount(reduced[1..])
  }

  function ListLengths(reduced: seq<Json>): nat
  {
    if reduced == [] then 0 else (if reduced[0].Arr? then |reduced[0].items| else 0) + ListLengths(reduced[1..])
  }

  /** `reduce_list` works element by element and keeps their order. */
  lemma {:induction false} ListReducedAppend(a: seq<Json>, b: seq<Json>, i: nat)
    ensures ListReduced(a + b, i) == ListReduced(a, i) + ListReduced(b, i)
  {
    if b != [] {
      assert (a + b)[..|a + b| - 1] == a + b[..|b| - 1];
      ListReducedAppend(a, b[..|b| - 1], i);
    } else {
      assert a + b == a;
    }
  }

  /** `reduce_dict` works element by element and keeps their order. */
  lemma {:induction false} DictReducedAppend(a: seq<Json>, b: seq<Json>, key: string)
    ensures DictReduced(a + b, key) == DictReduced(a, key) + DictReduced(b, key)
  {
    if b != [] {
      assert (a + b)[..|a + b| - 1] == a + b[..|b| - 1];
      DictReducedAppend(a, b[..|b| - 1], key);
    } else {
      assert a + b == a;
    }
  }

  /** `flatten` works element by element and keeps their order. */
  lemma {:induction false} FlattenedAppend(a: seq<Json>, b: seq<Json>)
    ensures Flattened(a + b) == Flattened(a) + Flattened(b)
  {
    if b != [] {
      assert (a + b)[..|a + b| - 1] == a + b[..|b| - 1];
      FlattenedAppend(a, b[..|b| - 1]);
    } else {
      assert a + b == a;
    }
  }

  /** `flatten` splices the lists in order and keeps everything else: its
      length is the number of non-lists plus the lengths of the lists. */
  lemma {:induction false} FlattenedLength(reduced: seq<Json>)
    ensures |Flattened(reduced)| + ListCount(reduced) == |reduced| + ListLengths(reduced)
    ensures reduced != [] ==> Flattened(reduced) == FlatPiece(reduced[0]) + Flattened(reduced[1..])
  {
    if reduced != [] {
      FlattenedCons(reduced);
      FlattenedLength(reduced[1..]);
    }
  }

  /** `flatten` seen from the front: the first piece, then the rest. */
  lemma FlattenedCons(reduced: seq<Json>)
    requires reduced != []
    ensures Flattened(reduced) == FlatPiece(reduced[0]) + Flattened(reduced[1..])
  {
    var x, rest := reduced[0], reduced[1..];
    assert [x] + rest == reduced;
    FlattenedAppend([x], rest);
    assert [x][..0] == [];
    assert Flattened([x]) == FlatPiece(x);
  }

  /** A list with no nested lists is left as it is by `flatten`. */
  lemma {:induction false} FlattenedNoLists(reduced: seq<Json>)
    requires forall k :: 0 <= k < |reduced| ==> !reduced[k].Arr?
    ensures Flattened(reduced) == reduced
  {
    if reduced != [] {
      FlattenedNoLists(reduced[..|reduced| - 1]);
    }
  }

  /** Each value `reduce_list` keeps is `v[i]` of some input value `v`. */
  lemma {:induction false} ListReducedPicks(reduced: seq<Json>, i: nat)
    ensures forall w :: w in ListReduced(reduced, i) ==>
      exists v :: v in reduced && IndexableAt(v, i) && w == At(v, i)
  {
    if reduced != [] {
      ListReducedPicks(reduced[..|reduced| - 1], i);
      assert forall v :: v in reduced[..|reduced| - 1] ==> v in reduced;
    }
  }

  /** Each value `reduce_dict` keeps is `v[key]` of some input object `v`. */
  lemma {:induction false} DictReducedPicks(reduced: seq<Json>, key: string)
    ensures forall w :: w in DictReduced(reduced, key) ==>
      exists v :: v in reduced && HasKey(v, key) && w == v.fields[key]
  {
    if reduced != [] {
      DictReducedPicks(reduced[..|reduced| - 1], key);
      assert forall v :: v in reduced[..|reduced| - 1] ==> v in reduced;
    }
  }

  // ---------------------------------------------------------------------
  // traverse

  /** The list `reduce_list` gives for one path segment, or a copy of the
      input when the segment is not an index. */
  function ListStep(reduced: seq<Json>, item: string): seq<Json>
  {
    if IsValidIndex(item) then ListReduced(reduced, IndexValue(item)) else reduced
  }

  /** The list `reduce_dict` gives for one path segment; it is only computed
      when the list step found nothing new. */
  function DictStep(reduced: seq<Json>, item: string): seq<Json>
  {
    var listReduced := ListStep(reduced, item);
    if listReduced == [] || listReduced == reduced then DictReduced(Flattened(reduced), item)
    else Flattened(reduced)
  }

  /** One pass of the `for item in path.split(".")` loop. */
  function Step(reduced: seq<Json>, item: string): seq<Json>
  {
    var listReduced := ListStep(reduced, item);
    var dictReduced := DictStep(reduced, item);
    if listReduced != [] && listReduced != reduced then listReduced
    else if dictReduced != [] && dictReduced != Flattened(reduced) then dictReduced
    else []
  }

  /** The segments applied in order. */
  function Walk(reduced: seq<Json>, items: seq<string>): seq<Json>
    decreases |items|
  {
    if items == [] then reduced else Walk(Step(reduced, items[0]), items[1..])
  }

  /** The tail of `traverse`: unwrap a single value, turn an empty list into
      `None`, then wrap for `force_list`. */
  function Normalised(reduced: seq<Json>, forceList: bool): Json
  {
    var unwrapped := if |reduced| == 1 then reduced[0] else Arr(reduced);
    var emptied := if unwrapped == Arr([]) then Null else unwrapped;
    if forceList && !emptied.Arr? then (if emptied == Null then Arr([]) else Arr([emptied]))
    else emptied
  }

  /** The working list before the first segment. */
  function Start(data: Json): seq<Json>
  {
    if Truthy(data) then [data] else []
  }

  /** `JsonTraverseParser(...).traverse(path, force_list)` on parsed `data`. */
  function TraverseResult(data: Json, path: string, forceList: bool): Json
  {
    var reduced := if path == "" then Start(data) else Walk(Start(data), Split(path, '.'));
    Normalised(reduced, forceList)
  }

  /** An empty path gives the data itself when it is truthy, and `None` otherwise. */
  lemma EmptyPath(data: Json)
    ensures TraverseResult(data, "", false) == (if Truthy(data) then data else Null)
    ensures TraverseResult(data, "", true) == (if !Truthy(data) then Arr([]) else if data.Arr? then data else Arr([data]))
  {
  }

  /** The final shape: a single value is unwrapped (unless it is an empty
      list, which becomes `None`), no value becomes `None`, several stay a
      list, and `force_list` always gives a list. */
  lemma NormalisedShape(reduced: seq<Json>, forceList: bool)
    ensures forceList ==> Normalised(reduced, forceList).Arr?
    ensures forceList && reduced == [] ==> Normalised(reduced, forceList) == Arr([])
    ensures !forceList && reduced == [] ==> Normalised(reduced, forceList) == Null
    ensures !forceList && |reduced| == 1 && reduced[0] != Arr([]) ==> Normalised(reduced, forceList) == reduced[0]
    ensures |reduced| >= 2 ==> Normalised(reduced, forceList) == Arr(reduced)
    ensures forceList && |reduced| == 1 && !reduced[0].Arr? && reduced[0] != Null
      ==> Normalised(reduced, forceList) == Arr(reduced)
  {
  }

  /** The segment neither indexes anything new nor looks up anything new. */
  predicate Stalls(reduced: seq<Json>, item: string)
  {
    var listReduced := ListStep(reduced, item);
    var dictReduced := DictStep(reduced, item);
    (listReduced == [] || listReduced == reduced)
    && (dictReduced == [] || dictReduced == Flattened(reduced))
  }

  /** A segment that changes nothing empties the working list. */
  lemma StallEmpties(reduced: seq<Json>, item: string)
    requires Stalls(reduced, item)
    ensures Step(reduced, item) == []
  {
  }

  /** Once the working list is empty every later segment leaves it empty. */
  lemma {:induction false} WalkFromEmpty(items: seq<string>)
    ensures Walk([], items) == []
    decreases |items|
  {
    if items != [] {
      assert ListReduced([], 0) == [] && DictReduced([], items[0]) == [] && Flattened([]) == [];
      assert Step([], items[0]) == [];
      WalkFromEmpty(items[1..]);
    }
  }

  /** Walking a path in two pieces is walking it at once. */
  lemma {:induction false} WalkAppend(reduced: seq<Json>, a: seq<string>, b: seq<string>)
    ensures Walk(reduced, a + b) == Walk(Walk(reduced, a), b)
    decreases |a|
  {
    if a != [] {
      assert (a + b)[1..] == a[1..] + b;
      WalkAppend(Step(reduced, a[0]), a[1..], b);
    } else {
      assert a + b == b;
    }
  }

  /** A walk whose `k`-th segment stalls ends with an empty working list. */
  lemma WalkStalls(reduced: seq<Json>, items: seq<string>, k: nat)
    requires k < |items| && Stalls(Walk(reduced, items[..k]), items[k])
    ensures Walk(reduced, items) == []
  {
    var rest := [items[k]] + items[k + 1..];
    assert items == items[..k] + rest;
    WalkAppend(reduced, items[..k], rest);
    var before := Walk(reduced, items[..k]);
    StallEmpties(before, items[k]);
    assert rest[1..] == items[k + 1..];
    WalkFromEmpty(items[k + 1..]);
  }

  /** If some segment of the path stalls, the whole traversal is `None`
      (or `[]` with `force_list`), whatever the segments after it are. */
  lemma StallGivesNone(data: Json, path: string, k: nat)
    requires path != "" && k < |Split(path, '.')|
    requires Stalls(Walk(Start(data), Split(path, '.')[..k]), Split(path, '.')[k])
    ensures TraverseResult(data, path, false) == Null
    ensures TraverseResult(data, path, true) == Arr([])
  {
    WalkStalls(Start(data), Split(path, '.'), k);
  }

  /** The parser over parsed data. The constructor's `json.loads` is not part
      of this model: it is handed the value that call produced (`Null` when
      the raw text was empty). */
  class JsonTraverseParser {
    const data: Json

    constructor(data: Json)
      ensures this.data == data
    {
      this.data := data;
    }

    /** `reduce_list`, for the index `int(item)` its caller has checked. */
    method ReduceList(reduced: seq<Json>, index: nat) returns (outputs: seq<Json>)
      ensures outputs == ListReduced(reduced, index)
    {
      outputs := [];
      for k := 0 to |reduced|
        invariant outputs == ListReduced(reduced[..k], index)
      {
        assert reduced[..k + 1][..k] == reduced[..k];
        var value := reduced[k];
        if IndexableAt(value, index) {
          outputs := outputs + [At(value, index)];
        }
      }
      assert reduced[..|reduced|] == reduced;
    }

    /** `reduce_dict` */
    method ReduceDict(reduced: seq<Json>, item: string) returns (outputs: seq<Json>)
      ensures outputs == DictReduced(reduced, item)
    {
      outputs := [];
      for k := 0 to |reduced|
        invariant outputs == DictReduced(reduced[..k], item)
      {
        assert reduced[..k + 1][..k] == reduced[..k];
        var value := reduced[k];
        if HasKey(value, item) {
          outputs := outputs + [value.fields[item]];
        }
      }
      assert reduced[..|reduced|] == reduced;
    }

    /** `flatten` */
    method Flatten(reduced: seq<Json>) returns (flattened: seq<Json>)
      ensures flattened == Flattened(reduced)
    {
      flattened := [];
      for k := 0 to |reduced|
        invariant flattened == Flattened(reduced[..k])
      {
        assert reduced[..k + 1][..k] == reduced[..k];
        var valueOrSublist := reduced[k];
        if valueOrSublist.Arr? {
          flattened := flattened + valueOrSublist.items;
        } else {
          flattened := flattened + [valueOrSublist];
        }
      }
      assert reduced[..|reduced|] == reduced;
    }

    /** One pass of the path loop of `traverse`. */
    method ApplySegment(reduced: seq<Json>, item: string) returns (next: seq<Json>)
      ensures next == Step(reduced, item)
    {
      var listReduced := reduced;
      if IsValidIndex(item) {
        listReduced := ReduceList(reduced, IndexValue(item));
      }
      assert listReduced == ListStep(reduced, item);
      var dictReduced := Flatten(reduced);
      if listReduced == [] || listReduced == reduced {
        dictReduced := ReduceDict(dictReduced, item);
      }
      assert dictReduced == DictStep(reduced, item);
      var flat := Flatten(reduced);
      if listReduced != [] && listReduced != reduced {
        next := listReduced;
      } else if dictReduced != [] && dictReduced != flat {
        next := dictReduced;
      } else {
        next := [];
      }
    }

    /** `traverse(path, force_list)` */
    method Traverse(path: string, forceList: bool) returns (result: Json)
      ensures result == TraverseResult(data, path, forceList)
    {
      var reduced: seq<Json> := [];
      if Truthy(data) {
        reduced := reduced + [data];
      }
      if path != "" {
        var items := Split(path, '.');
        for k := 0 to |items|
          invariant Walk(reduced, items[k..]) == Walk(Start(data), items)
        {
          assert items[k..] == [items[k]] + items[k + 1..];
          reduced := ApplySegment(reduced, items[k]);
        }
      }
      result := Normalised(reduced, forceList);
    }
  }
}
