/** sorted() on sets of strings, which several agents use. */
module Sorting {

  /** Before in the order of sorted(). */
  predicate Less(a: string, b: string) {
    b != "" && (a == "" || a[0] < b[0] || (a[0] == b[0] && Less(a[1..], b[1..])))
  }

  lemma {:induction false} LessOrder(a: string, b: string, c: string)
    ensures !Less(a, a)
    ensures Less(a, b) || a == b || Less(b, a)
    ensures Less(a, b) && Less(b, c) ==> Less(a, c)
  {
    if a != "" {
      LessOrder(a[1..], if b == "" then "" else b[1..], if c == "" then "" else c[1..]);
      if b != "" && a[0] == b[0] && a[1..] == b[1..] {
        assert a == [a[0]] + a[1..] && b == [b[0]] + b[1..];
      }
    }
  }

  ghost predicate Increasing(names: seq<string>) {
    forall i, j :: 0 <= i < j < |names| ==> Less(names[i], names[j])
  }

  /** A sorted set with one more name. */
  function Insert(names: seq<string>, name: string): (r: seq<string>)
    ensures |r| <= |names| + 1
  {
    if names == [] then [name]
    else if names[0] == name then names
    else if Less(name, names[0]) then [name] + names
    else [names[0]] + Insert(names[1..], name)
  }

  lemma {:induction false} InsertKeeps(names: seq<string>, name: string)
    requires Increasing(names)
    ensures Increasing(Insert(names, name))
    ensures forall x :: x in Insert(names, name) <==> x in names || x == name
  {
    if names != [] && names[0] != name {
      LessOrder(name, names[0], "");
      if Less(name, names[0]) {
        forall j | 0 <= j < |names| ensures Less(name, names[j]) {
          LessOrder(name, names[0], names[j]);
        }
      } else {
        InsertKeeps(names[1..], name);
        var rest := Insert(names[1..], name);
        forall j | 0 <= j < |rest| ensures Less(names[0], rest[j]) {
          assert rest[j] in rest;
        }
      }
    }
  }

  /** A set of names is sorted in one way only. */
  lemma {:induction false} SortedOnce(a: seq<string>, b: seq<string>)
    requires Increasing(a) && Increasing(b) && forall x :: x in a <==> x in b
    ensures a == b
  {
    assert b == [] || b[0] in b;
    if a != [] {
      assert a[0] in b;
      assert b[0] in a;
      var i :| 0 <= i < |b| && b[i] == a[0];
      var j :| 0 <= j < |a| && a[j] == b[0];
      LessOrder(a[0], b[0], a[0]);
      assert a[0] == b[0];
      forall x ensures x in a[1..] <==> x in b[1..] {
        LessOrder(a[0], a[0], a[0]);
        if x in a[1..] {
          assert x in b && Less(a[0], x);
        }
        if x in b[1..] {
          assert x in a && Less(b[0], x);
        }
      }
      SortedOnce(a[1..], b[1..]);
    }
  }

  /** The names in order; there is exactly one such list. */
  ghost function Sorted(names: set<string>): (r: seq<string>)
    ensures Increasing(r) && forall x :: x in r <==> x in names
  {
    SortedExists(names);
    var r :| Increasing(r) && forall x :: x in r <==> x in names;
    r
  }

  lemma {:induction false} SortedExists(names: set<string>)
    ensures exists r :: Increasing(r) && forall x :: x in r <==> x in names
  {
    if names == {} {
      assert Increasing([]);
    } else {
      var x :| x in names;
      SortedExists(names - {x});
      var r :| Increasing(r) && forall y :: y in r <==> y in names - {x};
      InsertKeeps(r, x);
      assert Increasing(Insert(r, x)) && forall y :: y in Insert(r, x) <==> y in names;
    }
  }

  /** sorted(names) */
  method Sort(names: set<string>) returns (r: seq<string>)
    ensures r == Sorted(names) && |r| <= |names|
  {
    r := [];
    var rest := names;
    while rest != {}
      invariant rest <= names && Increasing(r) && |r| + |rest| <= |names|
      invariant forall x :: x in names <==> x in r || x in rest
      decreases rest
    {
      var x :| x in rest;
      InsertKeeps(r, x);
      r := Insert(r, x);
      rest := rest - {x};
    }
    SortedOnce(r, Sorted(names));
  }
}
