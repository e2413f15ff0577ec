/** Go error values as far as the core builds them: an error reported by a
    collaborator, an error wrapped with a context prefix (`fmt.Errorf` with
    `%w`), and the combination `errors.Join` produces. */
module Errors {
  import opened Wrappers

  datatype Error =
    | Leaf(message: string)                 // reported by a collaborator
    | Wrapped(prefix: string, cause: Error) // fmt.Errorf("<prefix>%w", cause)
    | Joined(causes: seq<Error>)            // errors.Join of the non-nil arguments

  /** The text `Error()` returns. */
  function Message(e: Error): string
    decreases e
  {
    match e
    case Leaf(m) => m
    case Wrapped(p, cause) => p + Message(cause)
    case Joined(causes) => JoinedMessage(causes)
  }

  /** A joined error prints the texts of its causes separated by newlines. */
  function JoinedMessage(causes: seq<Error>): string
    decreases causes
  {
    if |causes| == 0 then ""
    else if |causes| == 1 then Message(causes[0])
    else Message(causes[0]) + "\n" + JoinedMessage(causes[1..])
  }

  /** How many of `errs` are non-nil. */
  function CountSome(errs: seq<Option<Error>>): nat {
    if errs == [] then 0
    else (if errs[0].Some? then 1 else 0) + CountSome(errs[1..])
  }

  /** `r` lists the non-nil errors of `errs` in their order, each once per
      occurrence: it has one entry per non-nil argument, and the argument at
      position `i` sits at the position given by the number of non-nil
      arguments before it. */
  ghost predicate Places(errs: seq<Option<Error>>, r: seq<Error>) {
    && |r| == CountSome(errs)
    && forall i :: 0 <= i < |errs| && errs[i].Some? ==>
         CountSome(errs[..i]) < |r| && r[CountSome(errs[..i])] == errs[i].value
  }

  /** The non-nil errors among `errs`, in their original order. */
  function NonNil(errs: seq<Option<Error>>): (r: seq<Error>)
    ensures Places(errs, r)
    ensures forall e :: e in r <==> Some(e) in errs
    ensures r == [] <==> forall i :: 0 <= i < |errs| ==> errs[i].None?
  {
    if errs == [] then []
    else
      var rest := NonNil(errs[1..]);
      assert errs == [errs[0]] + errs[1..];
      PlacesCons(errs, rest);
      match errs[0]
      case Some(e) => [e] + rest
      case None => rest
  }

  /** Prepending one argument to the list extends its placement by that
      argument's error, if it has one. */
  lemma PlacesCons(errs: seq<Option<Error>>, rest: seq<Error>)
    requires |errs| > 0
    requires Places(errs[1..], rest)
    ensures Places(errs, (if errs[0].Some? then [errs[0].value] else []) + rest)
  {
    var head := if errs[0].Some? then [errs[0].value] else [];
    var r := head + rest;
    forall i | 0 <= i < |errs| && errs[i].Some?
      ensures CountSome(errs[..i]) < |r| && r[CountSome(errs[..i])] == errs[i].value
    {
      if i > 0 {
        assert errs[..i][1..] == errs[1..][..i - 1];
        assert errs[1..][i - 1] == errs[i];
      } else {
        assert errs[..0] == [];
      }
    }
  }

  /** Dropping the first argument drops its error, if any, from the front of
      the placement. */
  lemma PlacesTail(errs: seq<Option<Error>>, r: seq<Error>)
    requires |errs| > 0
    requires Places(errs, r)
    ensures var c := if errs[0].Some? then 1 else 0;
      && c <= |r|
      && (c == 1 ==> r[0] == errs[0].value)
      && Places(errs[1..], r[c..])
  {
    var c := if errs[0].Some? then 1 else 0;
    if c == 1 {
      assert errs[..0] == [];
    }
    var tail := errs[1..];
    forall i | 0 <= i < |tail| && tail[i].Some?
      ensures CountSome(tail[..i]) < |r[c..]| && r[c..][CountSome(tail[..i])] == tail[i].value
    {
      assert errs[..i + 1][1..] == tail[..i];
      assert errs[i + 1] == tail[i];
    }
  }

  /** `Places` pins its list down: only one list places a given argument list. */
  lemma {:induction false} PlacesDetermines(errs: seq<Option<Error>>, r1: seq<Error>, r2: seq<Error>)
    requires Places(errs, r1) && Places(errs, r2)
    ensures r1 == r2
    decreases |errs|
  {
    if errs != [] {
      var c := if errs[0].Some? then 1 else 0;
      PlacesTail(errs, r1);
      PlacesTail(errs, r2);
      PlacesDetermines(errs[1..], r1[c..], r2[c..]);
      assert r1 == r1[..c] + r1[c..];
      assert r2 == r2[..c] + r2[c..];
    }
  }

  /** `errors.Join`: nil when every argument is nil, otherwise one error whose
      causes are the non-nil arguments in order, printed one per line. */
  function Join(errs: seq<Option<Error>>): (r: Option<Error>)
    ensures r.None? <==> forall i :: 0 <= i < |errs| ==> errs[i].None?
    ensures r.Some? ==> r.value.Joined? && Places(errs, r.value.causes)
    ensures r.Some? ==> Message(r.value) == JoinedMessage(r.value.causes)
  {
    var causes := NonNil(errs);
    if causes == [] then None else Some(Joined(causes))
  }

  /** Joining a single non-nil error, next to any number of nils, keeps its text. */
  lemma JoinOfOneKeepsMessage(before: seq<Option<Error>>, e: Error, after: seq<Option<Error>>)
    requires forall i :: 0 <= i < |before| ==> before[i].None?
    requires forall i :: 0 <= i < |after| ==> after[i].None?
    ensures Join(before + [Some(e)] + after) == Some(Joined([e]))
    ensures Message(Joined([e])) == Message(e)
  {
    NonNilOfOne(before, e, after);
  }

  lemma NonNilOfOne(before: seq<Option<Error>>, e: Error, after: seq<Option<Error>>)
    requires forall i :: 0 <= i < |before| ==> before[i].None?
    requires forall i :: 0 <= i < |after| ==> after[i].None?
    ensures NonNil(before + [Some(e)] + after) == [e]
  {
    var middle := [Some(e)];
    assert NonNil(middle) == [e] by {
      assert middle[1..] == [];
    }
    NonNilOfNils(before);
    NonNilOfNils(after);
    NonNilAppend(before, middle);
    NonNilAppend(before + middle, after);
  }

  lemma NonNilOfNils(errs: seq<Option<Error>>)
    requires forall i :: 0 <= i < |errs| ==> errs[i].None?
    ensures NonNil(errs) == []
  {
  }

  /** `NonNil` distributes over concatenation. */
  lemma {:induction false} NonNilAppend(a: seq<Option<Error>>, b: seq<Option<Error>>)
    ensures NonNil(a + b) == NonNil(a) + NonNil(b)
    decreases |a|
  {
    if a != [] {
      assert (a + b)[1..] == a[1..] + b;
      NonNilAppend(a[1..], b);
    } else {
      assert a + b == b;
    }
  }
}
