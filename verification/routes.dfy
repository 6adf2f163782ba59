/** The emulator's route table: every path `/{Category}/{kind}.xml` of the
    cross product of the three service categories and the three document
    kinds, mapped to the lower-cased pair that names the stored document. */
module Routes {
  import opened Strings

  /** The service categories, in the order the table is built. */
  const Categories: seq<string> := ["AVTransport", "ConnectionManager", "RenderingControl"]

  /** The document kinds served for each category, in build order. */
  const Kinds: seq<string> := ["control", "event", "scpd"]

  /** The request path of one (category, kind) document. */
  function RoutePath(c: string, n: string): string
  {
    "/" + c + "/" + n + ".xml"
  }

  /** A path is read back from its slashes: the category lies between the
      first two, the kind and the extension after the second. */
  lemma RoutePathParts(c: string, n: string)
    ensures var p := RoutePath(c, n);
      && |p| == |c| + |n| + 6
      && p[0] == '/' && p[|c| + 1] == '/'
      && p[1..|c| + 1] == c
      && p[|c| + 2..] == n + ".xml"
  {
  }

  /** The value stored under a category's and a kind's path. */
  function RouteValue(c: string, n: string): (string, string)
  {
    (Lower(c), Lower(n))
  }

  predicate NoSlash(s: string)
  {
    forall i :: 0 <= i < |s| ==> s[i] != '/'
  }

  /** No element of `s` occurs twice. */
  predicate Distinct(s: seq<string>)
  {
    forall i, j :: 0 <= i < j < |s| ==> s[i] != s[j]
  }

  /** Paths of categories without a slash determine category and kind:
      the second slash of a path ends the category. */
  lemma RoutePathInjective(c: string, n: string, c': string, n': string)
    requires NoSlash(c) && NoSlash(c')
    requires RoutePath(c, n) == RoutePath(c', n')
    ensures c == c' && n == n'
  {
    RoutePathParts(c, n);
    RoutePathParts(c', n');
    var p := RoutePath(c, n);
    if |c| < |c'| {
      assert false;
    } else if |c'| < |c| {
      assert false;
    }
    assert c == p[1..|c| + 1] == c';
    assert n + ".xml" == p[|c| + 2..] == n' + ".xml";
    assert n == (n + ".xml")[..|n|] == (n' + ".xml")[..|n'|] == n';
  }

  /** Within one category, the path determines the kind. */
  lemma RoutePathKind(c: string, n: string, n': string)
    requires RoutePath(c, n) == RoutePath(c, n')
    ensures n == n'
  {
    RoutePathParts(c, n);
    RoutePathParts(c, n');
    var p := RoutePath(c, n);
    assert n + ".xml" == p[|c| + 2..] == n' + ".xml";
    assert n == (n + ".xml")[..|n|] == (n' + ".xml")[..|n'|] == n';
  }

  /** One pass of the inner loop: store the paths of category `c` with
      every kind of `ns`, in order, over the table `t`. */
  function AddRow(t: map<string, (string, string)>, c: string, ns: seq<string>): map<string, (string, string)>
    decreases |ns|
  {
    if ns == [] then t
    else AddRow(t[RoutePath(c, ns[0]) := RouteValue(c, ns[0])], c, ns[1..])
  }

  /** The outer loop: one inner pass per category of `cs`, in order. */
  function AddRows(t: map<string, (string, string)>, cs: seq<string>, ns: seq<string>): map<string, (string, string)>
    decreases |cs|
  {
    if cs == [] then t else AddRows(AddRow(t, cs[0], ns), cs[1..], ns)
  }

  /** The module-level table, built from an empty one. */
  const Table: map<string, (string, string)> := AddRows(map[], Categories, Kinds)

  /** After an inner pass, each of its paths holds its own pair. */
  lemma {:induction false} AddRowStores(t: map<string, (string, string)>, c: string, ns: seq<string>, j: nat)
    requires j < |ns|
    ensures RoutePath(c, ns[j]) in AddRow(t, c, ns)
    ensures AddRow(t, c, ns)[RoutePath(c, ns[j])] == RouteValue(c, ns[j])
    decreases |ns|
  {
    var t' := t[RoutePath(c, ns[0]) := RouteValue(c, ns[0])];
    if j == 0 {
      forall k | 0 <= k < |ns[1..]| && RoutePath(c, ns[0]) == RoutePath(c, ns[1..][k])
        ensures t'[RoutePath(c, ns[0])] == RouteValue(c, ns[1..][k])
      {
        RoutePathKind(c, ns[0], ns[1..][k]);
      }
      AddRowKeeps(t', c, ns[1..], RoutePath(c, ns[0]));
    } else {
      AddRowStores(t', c, ns[1..], j - 1);
    }
  }

  /** An inner pass leaves every entry it writes with the right pair
      untouched, and adds no path but its own. */
  lemma {:induction false} AddRowKeeps(t: map<string, (string, string)>, c: string, ns: seq<string>, p: string)
    requires p in t
    requires forall j :: 0 <= j < |ns| && p == RoutePath(c, ns[j]) ==> t[p] == RouteValue(c, ns[j])
    ensures p in AddRow(t, c, ns) && AddRow(t, c, ns)[p] == t[p]
    decreases |ns|
  {
    if ns != [] {
      var t' := t[RoutePath(c, ns[0]) := RouteValue(c, ns[0])];
      if p == RoutePath(c, ns[0]) {
        assert t[p] == RouteValue(c, ns[0]);
      }
      forall j | 0 <= j < |ns[1..]| && p == RoutePath(c, ns[1..][j])
        ensures t'[p] == RouteValue(c, ns[1..][j])
      {
        assert ns[1..][j] == ns[j + 1];
      }
      AddRowKeeps(t', c, ns[1..], p);
    }
  }

  /** Every path an inner pass adds is one of its own. */
  lemma {:induction false} AddRowOnly(t: map<string, (string, string)>, c: string, ns: seq<string>, p: string)
    requires p in AddRow(t, c, ns) && p !in t
    ensures exists j :: 0 <= j < |ns| && p == RoutePath(c, ns[j])
    decreases |ns|
  {
    if ns != [] {
      var t' := t[RoutePath(c, ns[0]) := RouteValue(c, ns[0])];
      if p == RoutePath(c, ns[0]) {
        assert 0 < |ns| && p == RoutePath(c, ns[0]);
      } else {
        AddRowOnly(t', c, ns[1..], p);
        var j :| 0 <= j < |ns[1..]| && p == RoutePath(c, ns[1..][j]);
        assert p == RoutePath(c, ns[j + 1]);
      }
    }
  }

  /** Adding a row of distinct kinds whose paths are all new grows the
      table by one entry per kind. */
  lemma {:induction false} AddRowSize(t: map<string, (string, string)>, c: string, ns: seq<string>)
    requires Distinct(ns)
    requires forall j :: 0 <= j < |ns| ==> RoutePath(c, ns[j]) !in t
    ensures |AddRow(t, c, ns)| == |t| + |ns|
    decreases |ns|
  {
    if ns != [] {
      var t' := t[RoutePath(c, ns[0]) := RouteValue(c, ns[0])];
      assert |t'| == |t| + 1;
      forall j | 0 <= j < |ns[1..]|
        ensures RoutePath(c, ns[1..][j]) !in t'
      {
        assert ns[1..][j] == ns[j + 1] != ns[0];
        if RoutePath(c, ns[j + 1]) == RoutePath(c, ns[0]) {
          RoutePathKind(c, ns[j + 1], ns[0]);
        }
      }
      AddRowSize(t', c, ns[1..]);
    }
  }

  /** After the outer loop, each (category, kind) path holds its own pair. */
  lemma {:induction false} AddRowsStores(t: map<string, (string, string)>, cs: seq<string>, ns: seq<string>, i: nat, j: nat)
    requires forall k :: 0 <= k < |cs| ==> NoSlash(cs[k])
    requires i < |cs| && j < |ns|
    ensures RoutePath(cs[i], ns[j]) in AddRows(t, cs, ns)
    ensures AddRows(t, cs, ns)[RoutePath(cs[i], ns[j])] == RouteValue(cs[i], ns[j])
    decreases |cs|
  {
    var t1 := AddRow(t, cs[0], ns);
    if i == 0 {
      AddRowStores(t, cs[0], ns, j);
      var p := RoutePath(cs[0], ns[j]);
      forall k, m | 0 <= k < |cs[1..]| && 0 <= m < |ns| && p == RoutePath(cs[1..][k], ns[m])
        ensures t1[p] == RouteValue(cs[1..][k], ns[m])
      {
        RoutePathInjective(cs[0], ns[j], cs[1..][k], ns[m]);
      }
      AddRowsKeeps(t1, cs[1..], ns, p);
    } else {
      AddRowsStores(t1, cs[1..], ns, i - 1, j);
    }
  }

  /** The outer loop leaves an entry that already holds the pair of every
      path equal to it untouched. */
  lemma {:induction false} AddRowsKeeps(t: map<string, (string, string)>, cs: seq<string>, ns: seq<string>, p: string)
    requires p in t
    requires forall i, j :: 0 <= i < |cs| && 0 <= j < |ns| && p == RoutePath(cs[i], ns[j]) ==> t[p] == RouteValue(cs[i], ns[j])
    ensures p in AddRows(t, cs, ns) && AddRows(t, cs, ns)[p] == t[p]
    decreases |cs|
  {
    if cs != [] {
      AddRowKeeps(t, cs[0], ns, p);
      var t1 := AddRow(t, cs[0], ns);
      forall i, j | 0 <= i < |cs[1..]| && 0 <= j < |ns| && p == RoutePath(cs[1..][i], ns[j])
        ensures t1[p] == RouteValue(cs[1..][i], ns[j])
      {
        assert cs[1..][i] == cs[i + 1];
      }
      AddRowsKeeps(t1, cs[1..], ns, p);
    }
  }

  /** Every path the outer loop adds is the path of one of its pairs. */
  lemma {:induction false} AddRowsOnly(t: map<string, (string, string)>, cs: seq<string>, ns: seq<string>, p: string)
    requires p in AddRows(t, cs, ns) && p !in t
    ensures exists i, j :: 0 <= i < |cs| && 0 <= j < |ns| && p == RoutePath(cs[i], ns[j])
    decreases |cs|
  {
    if cs != [] {
      var t1 := AddRow(t, cs[0], ns);
      if p in t1 {
        AddRowOnly(t, cs[0], ns, p);
        var j :| 0 <= j < |ns| && p == RoutePath(cs[0], ns[j]);
        assert 0 < |cs| && p == RoutePath(cs[0], ns[j]);
      } else {
        AddRowsOnly(t1, cs[1..], ns, p);
        var i, j :| 0 <= i < |cs[1..]| && 0 <= j < |ns| && p == RoutePath(cs[1..][i], ns[j]);
        assert p == RoutePath(cs[i + 1], ns[j]);
      }
    }
  }

  /** An inner pass for one category adds no path of another
      slash-free category. */
  lemma AddRowFresh(t: map<string, (string, string)>, c: string, ns: seq<string>, c': string, n: string)
    requires NoSlash(c) && NoSlash(c') && c != c'
    requires RoutePath(c', n) !in t
    ensures RoutePath(c', n) !in AddRow(t, c, ns)
  {
    var p := RoutePath(c', n);
    if p in AddRow(t, c, ns) {
      AddRowOnly(t, c, ns, p);
      var m :| 0 <= m < |ns| && p == RoutePath(c, ns[m]);
      RoutePathInjective(c', n, c, ns[m]);
    }
  }

  /** With distinct slash-free categories and distinct kinds, the table
      built from an empty one has one entry per (category, kind) pair. */
  lemma {:induction false} AddRowsSize(t: map<string, (string, string)>, cs: seq<string>, ns: seq<string>)
    requires Distinct(cs) && Distinct(ns)
    requires forall k :: 0 <= k < |cs| ==> NoSlash(cs[k])
    requires forall i, j :: 0 <= i < |cs| && 0 <= j < |ns| ==> RoutePath(cs[i], ns[j]) !in t
    ensures |AddRows(t, cs, ns)| == |t| + |cs| * |ns|
    decreases |cs|
  {
    if cs != [] {
      AddRowSize(t, cs[0], ns);
      var t1 := AddRow(t, cs[0], ns);
      var rest := cs[1..];
      forall i, j | 0 <= i < |rest| && 0 <= j < |ns|
        ensures RoutePath(rest[i], ns[j]) !in t1
      {
        assert rest[i] == cs[i + 1];
        AddRowFresh(t, cs[0], ns, cs[i + 1], ns[j]);
      }
      AddRowsSize(t1, rest, ns);
      assert AddRows(t, cs, ns) == AddRows(t1, rest, ns);
      assert |t1| == |t| + |ns|;
      assert |AddRows(t1, rest, ns)| == |t1| + |rest| * |ns|;
      Product(|rest|, |ns|);
      assert |cs| == |rest| + 1;
    }
  }

  lemma Product(r: nat, n: nat)
    ensures (r + 1) * n == r * n + n
  {
  }

  /** The categories and kinds meet the conditions the general lemmas
      above ask for. */
  lemma NamesWellFormed()
    ensures Distinct(Categories) && Distinct(Kinds)
    ensures forall k :: 0 <= k < |Categories| ==> NoSlash(Categories[k])
    ensures forall k :: 0 <= k < |Kinds| ==> IsLower(Kinds[k])
  {
  }

  /** Every (category, kind) path is a key of the table, mapped to the
      lower-cased category and the kind unchanged. */
  lemma TableEntries(i: nat, j: nat)
    requires i < |Categories| && j < |Kinds|
    ensures RoutePath(Categories[i], Kinds[j]) in Table
    ensures Table[RoutePath(Categories[i], Kinds[j])] == (Lower(Categories[i]), Kinds[j])
  {
    NamesWellFormed();
    AddRowsStores(map[], Categories, Kinds, i, j);
    LowerOfLower(Kinds[j]);
  }

  /** The table has no key besides the nine (category, kind) paths. */
  lemma TableKeys(p: string)
    ensures p in Table <==> exists i, j :: 0 <= i < |Categories| && 0 <= j < |Kinds| && p == RoutePath(Categories[i], Kinds[j])
  {
    if p in Table {
      AddRowsOnly(map[], Categories, Kinds, p);
    } else if exists i, j :: 0 <= i < |Categories| && 0 <= j < |Kinds| && p == RoutePath(Categories[i], Kinds[j]) {
      var i, j :| 0 <= i < |Categories| && 0 <= j < |Kinds| && p == RoutePath(Categories[i], Kinds[j]);
      TableEntries(i, j);
    }
  }

  /** The table has exactly nine entries: no two pairs share a path. */
  lemma TableSize()
    ensures |Table| == 9
  {
    NamesWellFormed();
    AddRowsSize(map[], Categories, Kinds);
  }

  /** One entry spelled out: the AVTransport service description. */
  lemma TableExample()
    ensures RoutePath("AVTransport", "scpd") in Table
    ensures Table[RoutePath("AVTransport", "scpd")] == ("avtransport", "scpd")
  {
    TableEntries(0, 2);
    assert Lower("AVTransport") == "avtransport";
  }

  /** Lower-casing a path lower-cases its category and leaves a
      lower-case kind alone. */
  lemma LowerRoutePath(c: string, n: string)
    requires IsLower(n)
    ensures Lower(RoutePath(c, n)) == RoutePath(Lower(c), n)
  {
    LowerAppend("/", c);
    LowerAppend("/" + c, "/");
    LowerAppend("/" + c + "/", n);
    LowerAppend("/" + c + "/" + n, ".xml");
    LowerOfLower("/");
    LowerOfLower(n);
    LowerOfLower(".xml");
  }

  /** Lower-casing never introduces a slash. */
  lemma LowerNoSlash(s: string)
    requires NoSlash(s)
    ensures NoSlash(Lower(s))
  {
    forall i | 0 <= i < |s|
      ensures Lower(s)[i] != '/'
    {
      assert Lower(s)[i] == LowerChar(s[i]);
    }
  }

  /** Matching is case-sensitive: the path spelled with a lower-cased
      category, e.g. `/avtransport/scpd.xml`, is not a key. */
  lemma TableIsCaseSensitive(i: nat, j: nat)
    requires i < |Categories| && j < |Kinds|
    ensures RoutePath(Lower(Categories[i]), Kinds[j]) !in Table
  {
    var c := Lower(Categories[i]);
    var p := RoutePath(c, Kinds[j]);
    NamesWellFormed();
    LowerNoSlash(Categories[i]);
    assert 'A' <= Categories[i][0] <= 'Z';
    assert 'a' <= c[0] <= 'z';
    forall i', j' | 0 <= i' < |Categories| && 0 <= j' < |Kinds|
      ensures p != RoutePath(Categories[i'], Kinds[j'])
    {
      if p == RoutePath(Categories[i'], Kinds[j']) {
        RoutePathInjective(c, Kinds[j], Categories[i'], Kinds[j']);
        assert false;
      }
    }
    TableKeys(p);
  }
}
