/** What the three plotting image listeners share: the frames they queue,
    the comma-terminated CSV rows they write, the order in which a std::map
    keyed by face id hands out its entries, and the frame-rate estimate. */
module ListenerSupport {
  import opened Wrappers

  /** A frame handed back by the detector; only its timestamp (seconds) is used here. */
  datatype Frame = Frame(timestamp: real)

  /** One CSV field; the stream writes every field followed by a comma.
      Numbers are written with four fixed decimals. Glued is a number
      written with text straight after it and no comma in between. */
  datatype Field = Num(x: real) | Whole(n: int) | Txt(s: string) | Glued(x: real, s: string)

  type Row = seq<Field>

  /** A header or data field per name. */
  function Names(names: seq<string>): (r: Row)
    ensures |r| == |names|
    ensures forall k :: 0 <= k < |names| ==> r[k] == Txt(names[k])
  {
    seq(|names|, k requires 0 <= k < |names| => Txt(names[k]))
  }

  /** The numbers of a list of values, in order. */
  function Nums(values: seq<real>): (r: Row)
    ensures |r| == |values|
    ensures forall k :: 0 <= k < |values| ==> r[k] == Num(values[k])
  {
    seq(|values|, k requires 0 <= k < |values| => Num(values[k]))
  }

  /** n copies of the text "nan". */
  function Nans(n: nat): (r: Row)
    ensures |r| == n
    ensures forall k :: 0 <= k < n ==> r[k] == Txt("nan")
  {
    seq(n, _ => Txt("nan"))
  }

  /** The least face id of a non-empty set. */
  function SetMin(s: set<int>): (m: int)
    requires s != {}
    ensures m in s
    ensures forall y :: y in s ==> m <= y
  {
    MinExists(s);
    var m :| m in s && forall y :: y in s ==> m <= y;
    m
  }

  lemma {:induction false} MinExists(s: set<int>)
    requires s != {}
    ensures exists m :: m in s && forall y :: y in s ==> m <= y
    decreases |s|
  {
    NonEmpty(s);
    var x :| x in s;
    var rest := s - {x};
    if rest == {} {
      forall y | y in s
        ensures x <= y
      {
        assert y !in rest;
      }
    } else {
      assert |rest| < |s|;
      MinExists(rest);
      var m :| m in rest && forall y :: y in rest ==> m <= y;
      MinOfInsert(s, x, m);
    }
  }

  /** The smaller of x and the least of the others is the least of all. */
  lemma MinOfInsert(s: set<int>, x: int, m: int)
    requires x in s && m in s - {x} && forall y :: y in s - {x} ==> m <= y
    ensures exists least :: least in s && forall y :: y in s ==> least <= y
  {
    var least := if x < m then x else m;
    forall y | y in s
      ensures least <= y
    {
      if y != x {
        assert y in s - {x};
      }
    }
    assert least in s;
  }

  lemma NonEmpty(s: set<int>)
    requires s != {}
    ensures exists x :: x in s
  {
    var none: set<int> := {};
    assert (forall x :: x !in s) ==> s == none;
  }

  /** The keys of a std::map<FaceId, Face> in the order its iteration visits
      them: every key once, strictly increasing. */
  function SortedKeys(s: set<int>): (ks: seq<int>)
    ensures |ks| == |s|
    ensures forall k :: k in s <==> k in ks
    decreases |s|
  {
    if s == {} then []
    else
      var m := SetMin(s);
      [m] + SortedKeys(s - {m})
  }

  /** Strictly increasing, so no element appears twice. */
  predicate Increasing(ks: seq<int>) {
    forall i, j :: 0 <= i < j < |ks| ==> ks[i] < ks[j]
  }

  /** The keys come in strictly increasing order, so none is visited twice. */
  lemma {:induction false} SortedKeysIncreasing(s: set<int>)
    ensures Increasing(SortedKeys(s))
    decreases |s|
  {
    if s != {} {
      var m := SetMin(s);
      var rest := SortedKeys(s - {m});
      SortedKeysIncreasing(s - {m});
      forall x | x in rest
        ensures m < x
      {
        assert x in s - {m};
      }
      IncreasingCons(m, rest);
    }
  }

  lemma IncreasingCons(m: int, rest: seq<int>)
    requires Increasing(rest) && forall x :: x in rest ==> m < x
    ensures Increasing([m] + rest)
  {
    var ks := [m] + rest;
    forall i, j | 0 <= i < j < |ks|
      ensures ks[i] < ks[j]
    {
      assert ks[j] == rest[j - 1] && rest[j - 1] in rest;
      if i > 0 {
        assert ks[i] == rest[i - 1];
      } else {
        assert ks[i] == m;
      }
    }
  }

  /** The rate estimate 1 / (now - last); None where the interval is zero
      and the division yields an infinity. */
  function FrameRate(now: real, last: real): (fps: Option<real>)
    ensures fps.None? <==> now == last
    ensures fps.Some? ==> fps.value * (now - last) == 1.0
  {
    if now == last then None else Some(1.0 / (now - last))
  }
}
