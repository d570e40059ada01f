/** Options, results and the string operations of Python that the other modules rely on. */
module Text {

  datatype Option<+T> = None | Some(value: T)

  datatype Result<+T, +E> = Ok(value: T) | Err(error: E)

  /** `s.split(sep)` for a one-character separator: never empty, and pieces may be empty. */
  function Split(s: string, sep: char): (r: seq<string>)
    ensures |r| > 0
  {
    if s == "" then [""] else Attach(s[0], Split(s[1..], sep), sep)
  }

  /** Puts one more character in front of pieces already split. */
  function Attach(c: char, pieces: seq<string>, sep: char): (r: seq<string>)
    requires |pieces| > 0
    ensures |r| > 0
  {
    if c == sep then [""] + pieces else [[c] + pieces[0]] + pieces[1..]
  }

  /** `sep.join(parts)`. */
  function Join(parts: seq<string>, sep: char): string {
    if |parts| == 0 then ""
    else if |parts| == 1 then parts[0]
    else parts[0] + [sep] + Join(parts[1..], sep)
  }

  lemma {:induction false} JoinPrepend(c: char, parts: seq<string>, sep: char)
    requires |parts| > 0
    ensures Join([[c] + parts[0]] + parts[1..], sep) == [c] + Join(parts, sep)
  {
  }

  lemma {:induction false} JoinOfSplit(s: string, sep: char)
    ensures Join(Split(s, sep), sep) == s
  {
    if s != "" {
      var rest := Split(s[1..], sep);
      JoinOfSplit(s[1..], sep);
      if s[0] == sep {
        assert ([""] + rest)[1..] == rest;
        assert Join([""] + rest, sep) == "" + [sep] + Join(rest, sep);
        assert s == [s[0]] + s[1..];
      } else {
        JoinPrepend(s[0], rest, sep);
        assert s == [s[0]] + s[1..];
      }
    }
  }

  lemma {:induction false} SplitPiecesLackSeparator(s: string, sep: char)
    ensures forall p <- Split(s, sep) :: sep !in p
  {
    if s != "" {
      SplitPiecesLackSeparator(s[1..], sep);
      var rest := Split(s[1..], sep);
      assert rest[0] in rest;
      forall p | p in Split(s, sep) ensures sep !in p {
        if p in rest[1..] { assert p in rest; }
      }
    }
  }

  lemma {:induction false} SplitWithoutSeparator(s: string, sep: char)
    requires sep !in s
    ensures Split(s, sep) == [s]
  {
    if s != "" {
      assert forall c <- s[1..] :: c in s;
      SplitWithoutSeparator(s[1..], sep);
      assert s[0] in s && [s[0]] + s[1..] == s;
    }
  }

  lemma AttachConcat(c: char, a: seq<string>, b: seq<string>, sep: char)
    requires |a| > 0
    ensures Attach(c, a + b, sep) == Attach(c, a, sep) + b
  {
  }

  lemma SplitOfCons(c: char, s: string, sep: char)
    ensures Split([c] + s, sep) == Attach(c, Split(s, sep), sep)
  {
  }

  /** Splitting distributes over a separator put between two texts. */
  lemma {:induction false} SplitAtSeparator(left: string, right: string, sep: char)
    ensures Split(left + [sep] + right, sep) == Split(left, sep) + Split(right, sep)
  {
    if left == "" {
      assert left + [sep] + right == [sep] + right;
      SplitOfCons(sep, right, sep);
    } else {
      var c, rest := left[0], left[1..];
      assert left == [c] + rest;
      calc {
        Split(left + [sep] + right, sep);
        { assert left + [sep] + right == [c] + (rest + [sep] + right); }
        Split([c] + (rest + [sep] + right), sep);
        { SplitOfCons(c, rest + [sep] + right, sep); }
        Attach(c, Split(rest + [sep] + right, sep), sep);
        { SplitAtSeparator(rest, right, sep); }
        Attach(c, Split(rest, sep) + Split(right, sep), sep);
        { AttachConcat(c, Split(rest, sep), Split(right, sep), sep); }
        Attach(c, Split(rest, sep), sep) + Split(right, sep);
        { SplitOfCons(c, rest, sep); }
        Split(left, sep) + Split(right, sep);
      }
    }
  }

  lemma {:induction false} SplitOfJoin(parts: seq<string>, sep: char)
    requires |parts| > 0
    requires forall p <- parts :: sep !in p
    ensures Split(Join(parts, sep), sep) == parts
  {
    SplitWithoutSeparator(parts[0], sep);
    if |parts| == 1 {
      assert parts == [parts[0]];
    } else {
      assert forall p <- parts[1..] :: p in parts;
      SplitOfJoin(parts[1..], sep);
      SplitAtSeparator(parts[0], Join(parts[1..], sep), sep);
      assert parts == [parts[0]] + parts[1..];
    }
  }

  /** The part of `s` before its first `sep`, and the part after it; `None` when `sep` does not occur. */
  function Partition(s: string, sep: char): (r: Option<(string, string)>)
    ensures r.None? <==> sep !in s
    ensures r.Some? ==> s == r.value.0 + [sep] + r.value.1 && sep !in r.value.0
  {
    if s == "" then None
    else if s[0] == sep then Some(("", s[1..]))
    else match Partition(s[1..], sep)
      case None => None
      case Some((before, after)) => Some(([s[0]] + before, after))
  }

  lemma {:induction false} PartitionUnique(before: string, after: string, sep: char)
    requires sep !in before
    ensures Partition(before + [sep] + after, sep) == Some((before, after))
  {
    var s := before + [sep] + after;
    if before == "" {
      assert s == [sep] + after;
      assert s[1..] == after;
    } else {
      assert s[1..] == before[1..] + [sep] + after;
      assert before[0] in before;
      assert forall c <- before[1..] :: c in before;
      PartitionUnique(before[1..], after, sep);
      assert [before[0]] + before[1..] == before;
    }
  }
}
