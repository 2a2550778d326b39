/** Finite sets of integers in ascending order. */
module IntOrder {

  predicate StrictlyAscending(s: seq<int>) {
    forall i, j :: 0 <= i < j < |s| ==> s[i] < s[j]
  }

  ghost function Members(s: seq<int>): set<int> {
    set x | x in s
  }

  lemma EmptyOrMember(s: set<int>)
    ensures s == {} || exists x :: x in s
  {
    if !exists x :: x in s {
      assert s == {};
    }
  }

  ghost function Least(s: set<int>): (m: int)
    requires s != {}
    ensures m in s && forall x :: x in s ==> m <= x
  {
    LeastExists(s);
    var m :| m in s && forall x :: x in s ==> m <= x;
    m
  }

  lemma {:induction false} LeastExists(s: set<int>)
    requires s != {}
    ensures exists m :: m in s && forall x :: x in s ==> m <= x
  {
    EmptyOrMember(s);
    var a :| a in s;
    if s != {a} {
      LeastExists(s - {a});
      var m :| m in s - {a} && forall x :: x in s - {a} ==> m <= x;
      var best := if a < m then a else m;
      assert forall x :: x in s ==> x == a || x in s - {a};
      assert best in s && forall x :: x in s ==> best <= x;
    }
  }

  ghost function Ordered(s: set<int>): (r: seq<int>)
    ensures StrictlyAscending(r) && Members(r) == s
  {
    if s == {} then []
    else
      var rest := Ordered(s - {Least(s)});
      assert forall x :: x in rest <==> x in Members(rest);
      [Least(s)] + rest
  }

  lemma NoMembers(s: seq<int>)
    ensures s == [] <==> Members(s) == {}
  {
    assert s != [] ==> s[0] in Members(s);
  }

  lemma TailMembers(s: seq<int>)
    requires s != [] && StrictlyAscending(s)
    ensures Members(s[1..]) == Members(s) - {s[0]}
    ensures forall x :: x in Members(s) ==> s[0] <= x
  {
    assert forall x :: x in s[1..] <==> x in s && x != s[0];
  }

  lemma {:induction false} AscendingUnique(a: seq<int>, b: seq<int>)
    requires StrictlyAscending(a) && StrictlyAscending(b) && Members(a) == Members(b)
    ensures a == b
    decreases |a|
  {
    NoMembers(a);
    NoMembers(b);
    if a != [] {
      TailMembers(a);
      TailMembers(b);
      assert a[0] in Members(a) && b[0] in Members(b);
      AscendingUnique(a[1..], b[1..]);
      assert a == [a[0]] + a[1..] && b == [b[0]] + b[1..];
    }
  }

  function Insert(x: int, s: seq<int>): seq<int> {
    if s == [] then [x] else if x < s[0] then [x] + s else [s[0]] + Insert(x, s[1..])
  }

  lemma {:induction false} InsertProperties(x: int, s: seq<int>)
    requires StrictlyAscending(s) && x !in s
    ensures StrictlyAscending(Insert(x, s)) && Members(Insert(x, s)) == Members(s) + {x}
  {
    if s != [] && x >= s[0] {
      InsertProperties(x, s[1..]);
      assert s == [s[0]] + s[1..];
      assert forall y :: y in Insert(x, s[1..]) <==> y in Members(Insert(x, s[1..]));
    }
  }

  method Sorted(s: set<int>) returns (r: seq<int>)
    ensures r == Ordered(s)
  {
    r := [];
    var todo := s;
    while todo != {}
      invariant todo <= s && StrictlyAscending(r) && Members(r) == s - todo
      decreases todo
    {
      EmptyOrMember(todo);
      var x :| x in todo;
      assert x !in Members(r);
      InsertProperties(x, r);
      r := Insert(x, r);
      todo := todo - {x};
    }
    AscendingUnique(r, Ordered(s));
  }
}
