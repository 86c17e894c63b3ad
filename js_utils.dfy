/** The small string and value helpers of the library's `utils` folder. */
module JsUtils {
  import opened Common

  // ------------------------------------------------------- unique names

  /** The name tried on round `counter` of the search: `str` itself first, then `str_2`,
      `str_3`, and so on. */
  function Candidate(str: string, counter: nat): string
  {
    if counter <= 1 then str else str + "_" + NatToString(counter)
  }

  /** Different rounds try different names. */
  lemma {:induction false} CandidateInjective(str: string, a: nat, b: nat)
    requires 1 <= a && 1 <= b
    requires Candidate(str, a) == Candidate(str, b)
    ensures a == b
  {
    if a >= 2 && b >= 2 {
      var ca, cb := Candidate(str, a), Candidate(str, b);
      assert ca[|str| + 1..] == NatToString(a);
      assert cb[|str| + 1..] == NatToString(b);
      NatToStringInjective(a, b);
    }
  }

  /** The names tried before round `counter`. */
  ghost function Tried(str: string, counter: nat): set<string>
  {
    if counter <= 1 then {} else Tried(str, counter - 1) + {Candidate(str, counter - 1)}
  }

  /** A later round's name was not tried before, so each round tries one new name. */
  lemma {:induction false} NotYetTried(str: string, counter: nat, later: nat)
    requires 1 <= counter <= later
    ensures Candidate(str, later) !in Tried(str, counter)
    ensures |Tried(str, counter)| == counter - 1
  {
    if counter > 1 {
      NotYetTried(str, counter - 1, later);
      NotYetTried(str, counter - 1, counter - 1);
      if Candidate(str, later) == Candidate(str, counter - 1) {
        CandidateInjective(str, later, counter - 1);
      }
    }
  }

  /** A taken name of round `counter` leaves one name fewer of `arr` untried. */
  lemma FewerUntried(arr: seq<string>, str: string, counter: nat)
    requires counter >= 1 && Candidate(str, counter) in arr
    ensures |(set x | x in arr) - Tried(str, counter + 1)| < |(set x | x in arr) - Tried(str, counter)|
  {
    var pool := set x | x in arr;
    NotYetTried(str, counter, counter);
    assert Tried(str, counter + 1) == Tried(str, counter) + {Candidate(str, counter)};
    assert pool - Tried(str, counter + 1) == (pool - Tried(str, counter)) - {Candidate(str, counter)};
  }

  /** The first round from `counter` on whose name is not in `arr`, given that every earlier
      round's name is. */
  function FirstFreeRound(arr: seq<string>, str: string, counter: nat): (k: nat)
    requires counter >= 1
    requires forall j :: 1 <= j < counter ==> Candidate(str, j) in arr
    ensures k >= counter
    ensures Candidate(str, k) !in arr
    ensures forall j :: 1 <= j < k ==> Candidate(str, j) in arr
    decreases |(set x | x in arr) - Tried(str, counter)|
  {
    if Candidate(str, counter) !in arr then counter
    else
      FewerUntried(arr, str, counter);
      TakenSoFar(arr, str, counter);
      FirstFreeRound(arr, str, counter + 1)
  }

  lemma TakenSoFar(arr: seq<string>, str: string, counter: nat)
    requires forall j :: 1 <= j < counter ==> Candidate(str, j) in arr
    requires Candidate(str, counter) in arr
    ensures forall j :: 1 <= j < counter + 1 ==> Candidate(str, j) in arr
  {
  }

  /** The first free round is the one whose name is free while every earlier one is taken. */
  lemma FirstFreeRoundIs(arr: seq<string>, str: string, counter: nat)
    requires counter >= 1 && Candidate(str, counter) !in arr
    requires forall j :: 1 <= j < counter ==> Candidate(str, j) in arr
    ensures FirstFreeRound(arr, str, 1) == counter
  {
  }

  /** The name `getUniqueNameFromArr` settles on: `str` if it is free, otherwise `str_k` for
      the smallest `k >= 2` whose name is free. */
  function UniqueName(arr: seq<string>, str: string): (r: string)
    ensures r !in arr
    ensures str !in arr ==> r == str
    ensures str in arr ==>
              exists k :: k >= 2 && r == Candidate(str, k) &&
                          forall j :: 2 <= j < k ==> Candidate(str, j) in arr
  {
    var k := FirstFreeRound(arr, str, 1);
    assert str in arr ==> k >= 2;
    Candidate(str, k)
  }

  /** `getUniqueNameFromArr(arr, str)`: tries `str`, `str_2`, `str_3`, ... until a name is
      not in `arr`. `arr` is a value and is left as it was. */
  method GetUniqueNameFromArr(arr: seq<string>, str: string) returns (newStr: string)
    ensures newStr == UniqueName(arr, str)
  {
    newStr := str;
    var counter := 1;
    while newStr in arr
      invariant counter >= 1
      invariant newStr == Candidate(str, counter)
      invariant forall j :: 1 <= j < counter ==> Candidate(str, j) in arr
      decreases |(set x | x in arr) - Tried(str, counter)|
    {
      FewerUntried(arr, str, counter);
      TakenSoFar(arr, str, counter);
      counter := counter + 1;
      newStr := str + "_" + NatToString(counter);
    }
    FirstFreeRoundIs(arr, str, counter);
  }

  // ------------------------------------------------------------ file names

  /** What follows the last `sep` (all of `s` when there is none). */
  function AfterLast(s: string, sep: char): (r: string)
    ensures sep !in r
    ensures |r| <= |s| && s[|s| - |r|..] == r
  {
    s[LastIndexOf(s, sep) + 1..]
  }

  /** What precedes the first `sep` (all of `s` when there is none). */
  function BeforeFirst(s: string, sep: char): (r: string)
    ensures sep !in r
    ensures r <= s
  {
    if sep in s then s[..IndexOf(s, sep)] else s
  }

  /** Dropping the last part of a split leaves everything before the last separator. */
  lemma {:induction false} JoinInitBeforeLastSep(parts: seq<string>, sep: char)
    requires |parts| >= 2
    requires forall k :: 0 <= k < |parts| ==> sep !in parts[k]
    ensures sep in Join(parts, sep)
    ensures LastIndexOf(Join(parts, sep), sep) == |Join(parts[..|parts| - 1], sep)|
  {
    JoinSnoc(parts, sep);
    var a, last := Join(parts[..|parts| - 1], sep), parts[|parts| - 1];
    var s := Join(parts, sep);
    assert s == a + [sep] + last;
    assert s[|a|] == sep;
  }

  /** In `a + [sep] + rest` with no `sep` in `a`, the first separator is the one after `a`. */
  lemma FirstSepAt(a: string, sep: char, rest: string)
    requires sep !in a
    ensures IndexOf(a + [sep] + rest, sep) == |a|
    ensures (a + [sep] + rest)[..|a|] == a
  {
    var s := a + [sep] + rest;
    assert s[|a|] == sep;
    forall j | 0 <= j < |a| ensures s[j] != sep {
      assert s[j] == a[j];
    }
    IndexOfIs(s, sep, |a|);
    assert s[..|a|] == a;
  }

  /** In `init + [sep] + last` with no `sep` in `last`, the last separator is the one before
      `last`. */
  lemma LastSepAt(init: string, sep: char, last: string)
    requires sep !in last
    ensures LastIndexOf(init + [sep] + last, sep) == |init|
    ensures (init + [sep] + last)[|init| + 1..] == last
  {
    var p := init + [sep];
    var s := p + last;
    assert s[|init|] == sep;
    forall j | |p| <= j < |s| ensures s[j] != sep {
      assert s[j] in last;
    }
    LastIndexOfIs(s, sep, |init|);
    assert s[|p|..] == last;
  }

  /** `s.split(sep)[0]` is the text before the first separator. */
  lemma SplitFirst(s: string, sep: char)
    ensures Split(s, sep)[0] == BeforeFirst(s, sep)
  {
    var parts := Split(s, sep);
    if |parts| > 1 {
      FirstSepAt(parts[0], sep, Join(parts[1..], sep));
    }
  }

  /** `s.split(sep).pop()` is the text after the last separator. */
  lemma SplitLast(s: string, sep: char)
    ensures Split(s, sep)[|Split(s, sep)| - 1] == AfterLast(s, sep)
  {
    var parts := Split(s, sep);
    var n := |parts|;
    var last := parts[n - 1];
    assert sep !in last;
    if n > 1 {
      JoinSnoc(parts, sep);
      var init := Join(parts[..n - 1], sep);
      assert s == init + [sep] + last;
      LastSepAt(init, sep, last);
    } else {
      assert s == last;
      assert s[LastIndexOf(s, sep) + 1..] == s;
    }
  }

  lemma PrefixKeepsOut(a: string, b: string, c: char)
    requires a <= b && c !in b
    ensures c !in a
  {
  }

  /** `getFilenameFromUrl(url)`: the last `/`-segment of the URL cut at the first `?` and
      then at the first `#`; absent when that is empty or has no `.`. A result names a file:
      it has a `.` and no `/`, `?` or `#`. */
  function GetFilenameFromUrl(url: string): (r: Option<string>)
    ensures var name := BeforeFirst(BeforeFirst(AfterLast(url, '/'), '?'), '#');
            r == if name == "" || '.' !in name then None else Some(name)
    ensures r.Some? ==> '.' in r.value && '/' !in r.value && '?' !in r.value && '#' !in r.value
  {
    var segment := AfterLast(url, '/');
    var beforeQuery := BeforeFirst(segment, '?');
    var filename := BeforeFirst(beforeQuery, '#');
    assert '/' !in beforeQuery by { PrefixKeepsOut(beforeQuery, segment, '/'); }
    assert '/' !in filename && '?' !in filename by {
      PrefixKeepsOut(filename, beforeQuery, '/');
      PrefixKeepsOut(filename, beforeQuery, '?');
    }
    if filename == "" || '.' !in filename then None else Some(filename)
  }

  /** `getFilenameWithoutType(filename)`: drops the last `.` and what follows it; a name
      without `.` is returned as it is. The result is always a prefix of the name, and a
      strictly shorter one when the name has a `.`. */
  function GetFilenameWithoutType(filename: string): (r: string)
    ensures '.' !in filename ==> r == filename
    ensures '.' in filename ==> r == filename[..LastIndexOf(filename, '.')]
    ensures r <= filename
    ensures '.' in filename ==> |r| < |filename|
  {
    var parts := Split(filename, '.');
    if |parts| > 1 then
      JoinInitBeforeLastSep(parts, '.');
      JoinSnoc(parts, '.');
      Join(parts[..|parts| - 1], '.')
    else
      Join(parts, '.')
  }

  /** `getFileType(name)`: '' for a missing name, otherwise the text after the last `.`
      (the whole name when it has none). The result has no `.` and ends the name. */
  function GetFileType(name: Option<string>): (r: string)
    ensures name.None? ==> r == ""
    ensures name.Some? ==> r == AfterLast(name.value, '.')
    ensures '.' !in r
    ensures name.Some? ==> |r| <= |name.value| && name.value[|name.value| - |r|..] == r
  {
    if name.None? then "" else AfterLast(name.value, '.')
  }

  /** The two file-name helpers cut a name at the same place: a name with a `.` is its
      name without type, a `.`, and its type. */
  lemma {:induction false} NameAndTypeRejoin(filename: string)
    requires '.' in filename
    ensures GetFilenameWithoutType(filename) + "." + GetFileType(Some(filename)) == filename
  {
    var i := LastIndexOf(filename, '.');
    assert filename[i] == '.';
    assert filename == filename[..i] + "." + filename[i + 1..];
  }

  /** A name ending in `.`, or an empty name, has the empty type. */
  lemma FileTypeOfTrailingDot(name: string)
    requires name == "" || name[|name| - 1] == '.'
    ensures GetFileType(Some(name)) == ""
  {
    if name != "" {
      assert LastIndexOf(name, '.') == |name| - 1;
    }
  }

  // ---------------------------------------------------------------- isEmpty

  /** The kinds of JavaScript value `isEmpty` tells apart. `Obj` is any other object, with the
      tag `Object.prototype.toString` reports (`"Object"` for plain objects) and its own keys. */
  datatype JsValue =
    | Null
    | Undefined
    | Str(text: string)
    | Arr(items: seq<JsValue>)
    | MapOf(size: nat)
    | SetOf(size: nat)
    | Obj(tag: string, ownKeys: seq<string>)
    | Number
    | Boolean(b: bool)
    | Function

  /** `isEmpty(value)`. */
  predicate IsEmpty(v: JsValue)
  {
    match v
    case Null | Undefined => true
    case Str(text) => |text| == 0
    case Arr(items) => |items| == 0
    case MapOf(size) => size == 0
    case SetOf(size) => size == 0
    case Obj(tag, keys) => tag == "Object" && |keys| == 0
    case _ => false
  }

  /** How many things a value holds, for the values that hold things: characters of a
      string, items of an array, entries of a Map or Set, own keys of a plain object. */
  function Count(v: JsValue): Option<nat>
  {
    match v
    case Str(text) => Some(|text|)
    case Arr(items) => Some(|items|)
    case MapOf(size) => Some(size)
    case SetOf(size) => Some(size)
    case Obj(tag, keys) => if tag == "Object" then Some(|keys|) else None
    case _ => None
  }

  /** A value is empty exactly when it is null or undefined, or holds nothing; numbers,
      booleans, functions and non-plain objects are never empty. */
  lemma IsEmptyMeaning(v: JsValue)
    ensures IsEmpty(v) <==> v.Null? || v.Undefined? || Count(v) == Some(0)
    ensures v.Number? || v.Boolean? || v.Function? ==> !IsEmpty(v)
    ensures v.Obj? && v.tag != "Object" ==> !IsEmpty(v)
  {
  }
}
