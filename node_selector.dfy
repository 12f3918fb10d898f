/** The `--node-selector key=value` option: every string is split on `=`
    and the resulting list of parts is handed to `dict(...)`. */
module NodeSelector {
  import opened Wrappers

  const SEPARATOR: char := '='

  /** `s.split(sep)`: the pieces between occurrences of `sep`, always at
      least one (`"".split("=") == [""]`), none containing `sep`. */
  function Split(s: string, sep: char): (parts: seq<string>)
    ensures |parts| >= 1
    ensures forall i :: 0 <= i < |parts| ==> sep !in parts[i]
  {
    if s == [] then [[]]
    else
      var rest := Split(s[1..], sep);
      if s[0] == sep then [[]] + rest else [[s[0]] + rest[0]] + rest[1..]
  }

  /** `sep.join(parts)` */
  function Join(parts: seq<string>, sep: char): (s: string)
    requires |parts| >= 1
    ensures parts[0] <= s
  {
    if |parts| == 1 then parts[0] else parts[0] + [sep] + Join(parts[1..], sep)
  }

  /** Number of occurrences of `c` in `s`. */
  function Occurrences(s: string, c: char): (n: nat)
    ensures n <= |s|
    ensures n == 0 <==> c !in s
  {
    if s == [] then 0 else (if s[0] == c then 1 else 0) + Occurrences(s[1..], c)
  }

  /** Splitting loses nothing: joining the pieces gives the string back. */
  lemma {:induction false} SplitJoin(s: string, sep: char)
    ensures Join(Split(s, sep), sep) == s
  {
    if s != [] {
      var rest := Split(s[1..], sep);
      SplitJoin(s[1..], sep);
      if s[0] == sep {
        assert Split(s, sep)[1..] == rest;
      } else {
        var parts := Split(s, sep);
        if |rest| == 1 {
          assert parts == [[s[0]] + rest[0]];
        } else {
          assert parts[1..] == rest[1..];
          assert Join(rest, sep) == rest[0] + [sep] + Join(rest[1..], sep);
        }
      }
    }
  }

  /** Pieces free of `sep`, joined with `sep`, split back into themselves. */
  lemma {:induction false} JoinSplit(parts: seq<string>, sep: char)
    requires |parts| >= 1
    requires forall i :: 0 <= i < |parts| ==> sep !in parts[i]
    ensures Split(Join(parts, sep), sep) == parts
  {
    if |parts| == 1 {
      PieceSplit(parts[0], [], sep);
      assert parts[0] + [] == parts[0];
    } else {
      var tail := [sep] + Join(parts[1..], sep);
      JoinSplit(parts[1..], sep);
      PieceSplit(parts[0], tail, sep);
      assert Join(parts, sep) == parts[0] + tail;
      assert tail[1..] == Join(parts[1..], sep);
      assert Split(tail, sep) == [[]] + parts[1..];
      assert parts[0] + [] == parts[0];
      assert [parts[0]] + parts[1..] == parts;
    }
  }

  /** A separator-free prefix glues onto the first piece of what follows. */
  lemma {:induction false} PieceSplit(piece: string, tail: string, sep: char)
    requires sep !in piece
    requires tail == [] || tail[0] == sep
    ensures Split(piece + tail, sep) ==
      [piece + Split(tail, sep)[0]] + Split(tail, sep)[1..]
  {
    if piece == [] {
      assert piece + tail == tail;
    } else {
      assert (piece + tail)[1..] == piece[1..] + tail;
      PieceSplit(piece[1..], tail, sep);
      assert [piece[0]] + (piece[1..] + Split(tail, sep)[0]) == piece + Split(tail, sep)[0];
    }
  }

  /** Python's count: one more piece than there are separators. */
  lemma {:induction false} SplitLength(s: string, sep: char)
    ensures |Split(s, sep)| == Occurrences(s, sep) + 1
  {
    if s != [] {
      SplitLength(s[1..], sep);
    }
  }

  /** `dict(...)` rejects element `index` because it has `length` parts
      rather than 2 (Python raises ValueError). */
  datatype SelectorError = BadElement(index: nat, length: nat)

  /** `dict(items)` for a list of lists: each item must have exactly two
      parts, key then value; items are entered in order, so a later item
      overwrites an earlier one with the same key; the first bad item
      raises. */
  function Dict(items: seq<seq<string>>): (r: Result<map<string, string>, SelectorError>)
    ensures r.Success? <==> forall j :: 0 <= j < |items| ==> |items[j]| == 2
    ensures r.Failure? ==>
      && r.error.index < |items| && r.error.length == |items[r.error.index]| != 2
      && forall j :: 0 <= j < r.error.index ==> |items[j]| == 2
  {
    if items == [] then Success(map[])
    else
      var n := |items| - 1;
      match Dict(items[..n])
      case Failure(e) => Failure(e)
      case Success(m) =>
        if |items[n]| != 2 then Failure(BadElement(n, |items[n]|))
        else Success(m[items[n][0] := items[n][1]])
  }

  /** The keys of a built dict are exactly the items' keys. */
  lemma {:induction false} DictKeys(items: seq<seq<string>>, m: map<string, string>)
    requires Dict(items) == Success(m)
    ensures forall k :: k in m <==> exists i :: 0 <= i < |items| && items[i][0] == k
  {
    if items != [] {
      var n := |items| - 1;
      var front := items[..n];
      assert forall j :: 0 <= j < |front| ==> front[j] == items[j];
      var m' := Dict(front).value;
      assert m == m'[items[n][0] := items[n][1]];
      DictKeys(front, m');
      forall k
        ensures k in m <==> exists i :: 0 <= i < |items| && items[i][0] == k
      {
        if k in m' {
          var i :| 0 <= i < |front| && front[i][0] == k;
          assert items[i][0] == k;
        }
        if exists i :: 0 <= i < |items| && items[i][0] == k {
          var i :| 0 <= i < |items| && items[i][0] == k;
          if i < n {
            assert front[i][0] == k;
          }
        }
      }
    }
  }

  /** Each item whose key no later item repeats sets that key's value. */
  lemma {:induction false} DictValues(items: seq<seq<string>>, m: map<string, string>)
    requires Dict(items) == Success(m)
    ensures forall i :: 0 <= i < |items| && (forall j :: i < j < |items| ==> items[j][0] != items[i][0]) ==>
      items[i][0] in m && m[items[i][0]] == items[i][1]
  {
    if items != [] {
      var n := |items| - 1;
      var front := items[..n];
      assert forall j :: 0 <= j < |front| ==> front[j] == items[j];
      var m' := Dict(front).value;
      assert m == m'[items[n][0] := items[n][1]];
      DictValues(front, m');
    }
  }

  /** `[kv.split("=") for kv in node_selector]` */
  function Pairs(args: seq<string>): (items: seq<seq<string>>)
    ensures |items| == |args|
    ensures forall i :: 0 <= i < |args| ==> items[i] == Split(args[i], SEPARATOR)
  {
    seq(|args|, i requires 0 <= i < |args| => Split(args[i], SEPARATOR))
  }

  /** `dict([kv.split("=") for kv in node_selector])` (lines 65 and 106). */
  function ParseNodeSelector(args: seq<string>): (r: Result<map<string, string>, SelectorError>)
    ensures r.Success? <==> forall i :: 0 <= i < |args| ==> |Split(args[i], SEPARATOR)| == 2
    ensures r.Failure? ==>
      && r.error.index < |args| && r.error.length == |Split(args[r.error.index], SEPARATOR)| != 2
      && forall j :: 0 <= j < r.error.index ==> |Split(args[j], SEPARATOR)| == 2
  {
    Dict(Pairs(args))
  }

  /** The option is accepted exactly when every string holds exactly one
      `=`; otherwise the first string that does not is reported, with the
      number of pieces it split into. */
  lemma ParseAccepts(args: seq<string>)
    ensures ParseNodeSelector(args).Success? <==>
      forall i :: 0 <= i < |args| ==> Occurrences(args[i], SEPARATOR) == 1
    ensures ParseNodeSelector(args).Failure? ==>
      var e := ParseNodeSelector(args).error;
      && e.index < |args|
      && Occurrences(args[e.index], SEPARATOR) != 1
      && e.length == Occurrences(args[e.index], SEPARATOR) + 1
      && forall j :: 0 <= j < e.index ==> Occurrences(args[j], SEPARATOR) == 1
  {
    forall i | 0 <= i < |args| {
      SplitLength(args[i], SEPARATOR);
    }
  }

  /** A single `key=value` with no further `=` becomes the one entry
      `key -> value`. */
  lemma ParseSingle(key: string, value: string)
    requires SEPARATOR !in key && SEPARATOR !in value
    ensures ParseNodeSelector([key + [SEPARATOR] + value]) == Success(map[key := value])
  {
    var arg := key + [SEPARATOR] + value;
    JoinSplit([key, value], SEPARATOR);
    assert [key, value][1..] == [value];
    assert Join([key, value], SEPARATOR) == arg;
    var items := Pairs([arg]);
    assert items == [[key, value]];
    assert items[..0] == [];
    assert Dict(items[..0]) == Success(map[]);
  }

  /** No string after `args[i]` carries the same key. */
  predicate LastWithKey(args: seq<string>, i: int)
    requires 0 <= i < |args|
  {
    forall j :: i < j < |args| ==> Split(args[j], SEPARATOR)[0] != Split(args[i], SEPARATOR)[0]
  }

  /** The parsed selector maps each given key to the value of its last
      occurrence, and holds no other keys. */
  lemma ParseLaterWins(args: seq<string>, m: map<string, string>)
    requires ParseNodeSelector(args) == Success(m)
    ensures forall k :: k in m <==> exists i :: 0 <= i < |args| && Split(args[i], SEPARATOR)[0] == k
    ensures forall i :: 0 <= i < |args| ==> |Split(args[i], SEPARATOR)| == 2
    ensures forall i | 0 <= i < |args| && LastWithKey(args, i) ::
      m[Split(args[i], SEPARATOR)[0]] == Split(args[i], SEPARATOR)[1]
  {
    var items := Pairs(args);
    DictKeys(items, m);
    DictValues(items, m);
    forall k | k in m
      ensures exists i :: 0 <= i < |args| && Split(args[i], SEPARATOR)[0] == k
    {
      var i :| 0 <= i < |items| && items[i][0] == k;
      assert Split(args[i], SEPARATOR)[0] == k;
    }
  }
}
