/** The registered AtCoder user names, shared by the three command sets: the comma-separated
    `register` argument, the union and removal on the user set, and its listings. */
module UserNames {

  import opened Text

  /** A name as `register` stores it: no comma inside, no whitespace at either end. */
  predicate Bare(u: string) {
    ',' !in u && (u == [] || (!IsWhitespace(u[0]) && !IsWhitespace(u[|u| - 1])))
  }

  /** `users.split(",").map(|u| u.trim().to_string())`: one trimmed piece per comma-separated
      field, empty pieces included. */
  function Pieces(input: string): (r: seq<string>)
    ensures |r| == Count(input, ',') + 1
    ensures forall i :: 0 <= i < |r| ==> Bare(r[i])
  {
    var parts := Split(input, ',');
    var r := seq(|parts|, i requires 0 <= i < |parts| => Trim(parts[i]));
    forall i | 0 <= i < |r| ensures Bare(r[i]) {
      TrimIsBare(parts[i]);
    }
    r
  }

  /** Trimming a comma-free field gives a bare name. */
  lemma {:induction false} TrimIsBare(p: string)
    requires ',' !in p
    ensures Bare(Trim(p))
  {
    var r := Trim(p);
    TrimIsInfix(p);
    var k := LeadingSpace(p);
    forall j | 0 <= j < |r| ensures r[j] != ',' {
      assert r[j] == p[k + j];
    }
  }

  /** Joining bare names with "," and parsing the result gives the names back. */
  lemma {:induction false} PiecesOfJoin(names: seq<string>)
    requires |names| >= 1
    requires forall i :: 0 <= i < |names| ==> Bare(names[i])
    ensures Pieces(Join(names, ",")) == names
  {
    var s := Join(names, ",");
    assert "," == [','];
    SplitJoin(names, ',');
    assert Split(s, ',') == names;
    var r := Pieces(s);
    assert r == seq(|names|, i requires 0 <= i < |names| => Trim(names[i]));
    forall i | 0 <= i < |names| ensures r[i] == names[i] {
      TrimKeepsBareWord(names[i]);
    }
  }

  /** `users.extend(pieces)`: every piece joins the set and nothing leaves it. */
  function Register(users: set<string>, input: string): (r: set<string>)
    ensures forall u :: u in r <==> u in users || u in Pieces(input)
    ensures users <= r
  {
    users + set i | 0 <= i < |Pieces(input)| :: Pieces(input)[i]
  }

  /** Registering the same input twice changes nothing the second time. */
  lemma RegisterIdempotent(users: set<string>, input: string)
    ensures Register(Register(users, input), input) == Register(users, input)
  {
  }

  /** Two adjacent commas register the empty name alongside the names around them. */
  lemma EmptyFieldRegistersEmptyName(users: set<string>, a: string, b: string)
    requires Bare(a) && Bare(b)
    ensures Pieces(a + ",," + b) == [a, "", b]
    ensures "" in Register(users, a + ",," + b)
  {
    assert Join([a, "", b], ",") == a + ",," + b by {
      assert Join([b], ",") == b;
      assert Join(["", b], ",") == "" + "," + b;
      assert [a, "", b][1..] == ["", b];
    }
    PiecesOfJoin([a, "", b]);
    assert Pieces(a + ",," + b)[1] == "";
  }

  /** `users.remove(&user)`: the exact name leaves the set, every other name stays. */
  function Unregister(users: set<string>, user: string): (r: set<string>)
    ensures forall u :: u in r <==> u in users && u != user
    ensures user !in users ==> r == users
  {
    users - {user}
  }

  // ---------------------------------------------------------------- listings

  /** Strictly ascending in `String` order (a set has no duplicates). */
  predicate Ascending(s: seq<string>) {
    forall i, j :: 0 <= i < j < |s| ==> LexLess(s[i], s[j])
  }

  /** Insertion of a new name into an ascending listing. */
  function Insert(s: seq<string>, x: string): (r: seq<string>)
    requires Ascending(s) && x !in s
    ensures Ascending(r) && |r| == |s| + 1
    ensures forall y :: y in r <==> y in s || y == x
    decreases |s|
  {
    if s == [] then [x]
    else if LexLess(x, s[0]) then
      assert Ascending([x] + s) by {
        forall j | 0 <= j < |s| ensures LexLess(x, s[j]) {
          if j > 0 { LexTransitive(x, s[0], s[j]); }
        }
      }
      [x] + s
    else
      LexTotal(x, s[0]);
      var rest := Insert(s[1..], x);
      assert Ascending([s[0]] + rest) by {
        forall j | 0 <= j < |rest| ensures LexLess(s[0], rest[j]) {
          assert rest[j] in s[1..] || rest[j] == x;
        }
      }
      [s[0]] + rest
  }

  /** `iter().cloned().collect::<Vec<_>>()` followed by `sort()`: every registered name
      once, ascending. */
  method Sorted(users: set<string>) returns (r: seq<string>)
    ensures Ascending(r)
    ensures |r| == |users|
    ensures forall u :: u in r <==> u in users
  {
    r := [];
    var rest := users;
    while rest != {}
      invariant rest <= users
      invariant Ascending(r)
      invariant forall u :: u in r <==> u in users && u !in rest
      invariant |r| == |users - rest|
      decreases |rest|
    {
      var x :| x in rest;
      assert users - (rest - {x}) == (users - rest) + {x};
      r := Insert(r, x);
      rest := rest - {x};
    }
  }

  /** The first name of an ascending listing precedes every other name in it. */
  lemma AscendingFirst(s: seq<string>, x: string)
    requires Ascending(s) && x in s && x != s[0]
    ensures LexLess(s[0], x)
  {
  }

  /** The rest of an ascending listing is ascending and no longer holds the first name. */
  lemma AscendingTail(s: seq<string>)
    requires Ascending(s) && s != []
    ensures Ascending(s[1..]) && s[0] !in s[1..]
  {
    forall k | 0 <= k < |s| - 1 ensures s[1..][k] != s[0] {
      LexIrreflexive(s[0]);
      assert LexLess(s[0], s[k + 1]);
    }
  }

  /** Two ascending listings of the same names are the same listing, so the sorted listing
      does not depend on the set's iteration order. */
  lemma {:induction false} AscendingUnique(a: seq<string>, b: seq<string>)
    requires Ascending(a) && Ascending(b)
    requires forall u :: u in a <==> u in b
    ensures a == b
    decreases |a|
  {
    if a != [] {
      assert a[0] in a;
    }
    if b != [] {
      assert b[0] in b;
    }
    if a != [] && b != [] {
      if a[0] != b[0] {
        AscendingFirst(a, b[0]);
        AscendingFirst(b, a[0]);
        LexAsymmetric(a[0], b[0]);
        assert false;
      }
      AscendingTail(a);
      AscendingTail(b);
      forall u ensures u in a[1..] <==> u in b[1..] {
        assert u in a <==> u == a[0] || u in a[1..];
        assert u in b <==> u == b[0] || u in b[1..];
      }
      AscendingUnique(a[1..], b[1..]);
      assert a == [a[0]] + a[1..] && b == [b[0]] + b[1..];
    }
  }

  /** `users.iter()` in the set's own order: every registered name exactly once. */
  method Enumerate(users: set<string>) returns (r: seq<string>)
    ensures |r| == |users|
    ensures forall u :: u in r <==> u in users
    ensures forall i, j :: 0 <= i < j < |r| ==> r[i] != r[j]
  {
    r := [];
    var rest := users;
    while rest != {}
      invariant rest <= users
      invariant forall u :: u in r <==> u in users && u !in rest
      invariant forall i, j :: 0 <= i < j < |r| ==> r[i] != r[j]
      invariant |r| == |users - rest|
      decreases |rest|
    {
      var x :| x in rest;
      assert users - (rest - {x}) == (users - rest) + {x};
      r := r + [x];
      rest := rest - {x};
    }
  }
}
