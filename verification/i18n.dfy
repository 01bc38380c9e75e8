/** The translation helpers `t` and `tArray`: a dot-separated key is walked
    through a nested dictionary of Indonesian strings. The dictionary itself
    is a parameter. */
module I18n {
  import opened Results
  import Text

  /** A value of the dictionary: a string, an array of strings, a nested
      object, or any other JavaScript value (a number, a boolean, `null`). */
  datatype Entry =
    | Str(text: string)
    | Arr(items: seq<string>)
    | Dict(entries: map<string, Entry>)
    | Other

  /** One step of the walk: the guard `value && typeof value === 'object' && k in value`
      followed by `value[k]`. Arrays are objects whose own keys are the
      canonical indices; strings and other values have no children.
      Properties inherited from the prototype (`toString`, `__proto__`,
      an array's `length`) are treated as missing: none of them is a string
      or a non-empty array, nor leads to one. */
  function Child(v: Entry, k: string): (r: Option<Entry>)
    ensures v.Str? || v.Other? ==> r == None
  {
    match v
    case Dict(m) => if k in m then Some(m[k]) else None
    case Arr(items) =>
      if Text.IsCanonicalNumeral(k) && Text.DigitsValue(k) < |items|
      then Some(Str(items[Text.DigitsValue(k)]))
      else None
    case _ => None
  }

  /** The value found by following every segment, or `None` as soon as one is missing. */
  function Walk(v: Entry, path: seq<string>): Option<Entry>
    decreases |path|
  {
    if |path| == 0 then Some(v)
    else
      match Child(v, path[0])
      case None => None
      case Some(c) => Walk(c, path[1..])
  }

  /** `t(key)`: the string at the key's path, otherwise the key itself. */
  function T(dict: Entry, key: string): (r: string)
    ensures Walk(dict, Text.Split(key, '.')).Some? && Walk(dict, Text.Split(key, '.')).value.Str? ==>
      r == Walk(dict, Text.Split(key, '.')).value.text
    ensures r != key ==> Walk(dict, Text.Split(key, '.')).Some? && Walk(dict, Text.Split(key, '.')).value.Str?
  {
    match Walk(dict, Text.Split(key, '.'))
    case Some(Str(s)) => s
    case _ => key
  }

  /** `tArray(key)`: the array at the key's path, otherwise the empty array.
      A key that finds a non-empty array is never translated by `t`. */
  function TArray(dict: Entry, key: string): (r: seq<string>)
    ensures r != [] ==> T(dict, key) == key
    ensures r != [] ==> Walk(dict, Text.Split(key, '.')) == Some(Arr(r))
  {
    match Walk(dict, Text.Split(key, '.'))
    case Some(Arr(items)) => items
    case _ => []
  }

  /** Walking a concatenated path is walking the first part, then the second. */
  lemma {:induction false} WalkAppend(v: Entry, a: seq<string>, b: seq<string>)
    ensures Walk(v, a + b) == (match Walk(v, a) case None => None case Some(w) => Walk(w, b))
    decreases |a|
  {
    if |a| > 0 {
      assert (a + b)[0] == a[0] && (a + b)[1..] == a[1..] + b;
      match Child(v, a[0])
      case None =>
      case Some(c) => WalkAppend(c, a[1..], b);
    } else {
      assert a + b == b;
    }
  }

  /** The dictionary holding `leaf` under exactly the given path. */
  function Nest(path: seq<string>, leaf: Entry): Entry
    decreases |path|
  {
    if |path| == 0 then leaf else Dict(map[path[0] := Nest(path[1..], leaf)])
  }

  /** Walking the path of a nest finds its leaf. */
  lemma {:induction false} WalkNest(path: seq<string>, leaf: Entry)
    ensures Walk(Nest(path, leaf), path) == Some(leaf)
    decreases |path|
  {
    if |path| > 0 {
      WalkNest(path[1..], leaf);
    }
  }

  /** A key is the dot-join of its segments whenever no segment holds a dot. */
  predicate DotFree(path: seq<string>) {
    forall k | 0 <= k < |path| :: '.' !in path[k]
  }

  /** `t` returns the string found by walking the segments of the key. */
  lemma TFindsString(dict: Entry, path: seq<string>, s: string)
    requires |path| >= 1 && DotFree(path)
    requires Walk(dict, path) == Some(Str(s))
    ensures T(dict, Text.Join(path, '.')) == s
    ensures TArray(dict, Text.Join(path, '.')) == []
  {
    Text.SplitJoin(path, '.');
  }

  /** `tArray` returns the array found by walking the segments of the key. */
  lemma TArrayFindsArray(dict: Entry, path: seq<string>, items: seq<string>)
    requires |path| >= 1 && DotFree(path)
    requires Walk(dict, path) == Some(Arr(items))
    ensures TArray(dict, Text.Join(path, '.')) == items
    ensures T(dict, Text.Join(path, '.')) == Text.Join(path, '.')
  {
    Text.SplitJoin(path, '.');
  }

  /** A string stored under a dot-free path is what `t` gives back for that path. */
  lemma TranslateNested(path: seq<string>, s: string)
    requires |path| >= 1 && DotFree(path)
    ensures T(Nest(path, Str(s)), Text.Join(path, '.')) == s
  {
    WalkNest(path, Str(s));
    TFindsString(Nest(path, Str(s)), path, s);
  }

  /** As soon as one segment is missing, `t` gives the key back and `tArray`
      gives the empty array, whatever the later segments are. */
  lemma MissingSegment(dict: Entry, key: string, j: nat, w: Entry)
    requires j < |Text.Split(key, '.')|
    requires Walk(dict, Text.Split(key, '.')[..j]) == Some(w)
    requires Child(w, Text.Split(key, '.')[j]) == None
    ensures T(dict, key) == key
    ensures TArray(dict, key) == []
  {
    var path := Text.Split(key, '.');
    assert path == path[..j] + path[j..];
    WalkAppend(dict, path[..j], path[j..]);
  }

  /** A split of `key + "." + d` adds `d` as one more segment when `d` has no dot. */
  lemma SplitSnoc(key: string, d: string)
    requires '.' !in d
    ensures Text.Split(key + "." + d, '.') == Text.Split(key, '.') + [d]
  {
    var parts := Text.Split(key, '.');
    Text.JoinSplit(key, '.');
    JoinSnoc(parts, d, '.');
    Text.SplitJoin(parts + [d], '.');
  }

  lemma {:induction false} JoinSnoc(parts: seq<string>, d: string, sep: char)
    requires |parts| >= 1
    ensures Text.Join(parts + [d], sep) == Text.Join(parts, sep) + [sep] + d
    decreases |parts|
  {
    if |parts| == 1 {
      assert parts + [d] == [parts[0], d];
      assert [parts[0], d][1..] == [d];
    } else {
      assert (parts + [d])[1..] == parts[1..] + [d];
      JoinSnoc(parts[1..], d, sep);
    }
  }

  /** Element `i` of an array is reachable by `t` under the array's key
      followed by the index: `t("x.0")` is `tArray("x")[0]`. */
  lemma IndexIntoArray(dict: Entry, key: string, i: nat)
    requires i < |TArray(dict, key)|
    ensures T(dict, key + "." + Text.NatToDecimal(i)) == TArray(dict, key)[i]
  {
    var items := TArray(dict, key);
    var d := Text.NatToDecimal(i);
    assert '.' !in d by {
      forall k | 0 <= k < |d| ensures d[k] != '.' {
        assert Text.IsDigit(d[k]);
      }
    }
    SplitSnoc(key, d);
    WalkAppend(dict, Text.Split(key, '.'), [d]);
    Text.DigitsValueOfDecimal(i);
    assert Child(Arr(items), d) == Some(Str(items[i]));
  }
}
