/**
 File names of the message history: user names become safe path components, and an unordered
 pair of users gets one private file.
 */
module SafeNames {

  /** `std::isalnum` in the "C" locale. */
  predicate IsAlnum(c: char) {
    'a' <= c <= 'z' || 'A' <= c <= 'Z' || '0' <= c <= '9'
  }

  /** Characters that only stand for themselves in a file name. */
  predicate Plain(c: char) { IsAlnum(c) || c == '-' }

  predicate Safe(c: char) { Plain(c) || c == '_' }

  function SafeChar(c: char): char { if Safe(c) then c else '_' }

  function Sanitised(name: string): string {
    if name == "" then "unknown" else seq(|name|, i requires 0 <= i < |name| => SafeChar(name[i]))
  }

  method SafePathComponent(value: string) returns (result: string)
    ensures result == Sanitised(value)
    ensures result != "" && forall c :: c in result ==> Safe(c)
    ensures value == "" ==> result == "unknown"
    ensures value != "" ==>
              && |result| == |value|
              && forall i :: 0 <= i < |value| ==>
                   var c := value[i];
                   result[i] == if 'a' <= c <= 'z' || 'A' <= c <= 'Z' || '0' <= c <= '9' || c in {'-', '_'}
                                then c else '_'
  {
    result := "";
    for i := 0 to |value|
      invariant |result| == i
      invariant forall k :: 0 <= k < i ==> result[k] == SafeChar(value[k])
    {
      var ch := value[i];
      if IsAlnum(ch) || ch == '-' || ch == '_' {
        result := result + [ch];
      } else {
        result := result + ['_'];
      }
    }
    if result == "" {
      result := "unknown";
    } else {
      assert result == Sanitised(value);
    }
  }

  lemma SanitisedIsSafe(name: string)
    ensures Sanitised(name) != "" && forall c :: c in Sanitised(name) ==> Safe(c)
    ensures Sanitised(Sanitised(name)) == Sanitised(name)
  {
  }

  /** Byte-wise lexicographic order, as `std::string` compares. */
  predicate Less(a: string, b: string) {
    b != "" && (a == "" || a[0] < b[0] || (a[0] == b[0] && Less(a[1..], b[1..])))
  }

  /** The names first differ in a smaller character, or the first is a proper prefix of the second. */
  ghost predicate DifferAt(a: string, b: string, n: nat) {
    n <= |a| && n < |b| && a[..n] == b[..n] && (n == |a| || a[n] < b[n])
  }

  lemma FirstOfBoth(a: string, b: string, n: nat)
    requires 0 < n <= |a| && n <= |b| && a[..n] == b[..n]
    ensures a[0] == b[0]
  {
    assert a[0] == a[..n][0] && b[0] == b[..n][0];
  }

  lemma {:induction false} LessExactly(a: string, b: string)
    ensures Less(a, b) <==> exists n: nat :: DifferAt(a, b, n)
  {
    if a != "" && b != "" && a[0] == b[0] {
      LessExactly(a[1..], b[1..]);
      if n: nat :| DifferAt(a[1..], b[1..], n) {
        assert a[..n + 1] == [a[0]] + a[1..][..n];
        assert b[..n + 1] == [b[0]] + b[1..][..n];
        assert DifferAt(a, b, n + 1);
      }
      if n: nat :| DifferAt(a, b, n) {
        assert n > 0;
        assert a[1..][..n - 1] == a[..n][1..];
        assert b[1..][..n - 1] == b[..n][1..];
        assert DifferAt(a[1..], b[1..], n - 1);
      }
    } else {
      assert Less(a, b) ==> DifferAt(a, b, 0);
      forall n: nat | DifferAt(a, b, n) ensures n == 0 {
        if n > 0 {
          FirstOfBoth(a, b, n);
          assert false;
        }
      }
    }
  }

  lemma {:induction false} LessIsTotal(a: string, b: string)
    ensures Less(a, b) || Less(b, a) || a == b
    ensures !(Less(a, b) && Less(b, a))
    ensures a == b ==> !Less(a, b)
  {
    if a != "" && b != "" && a[0] == b[0] {
      LessIsTotal(a[1..], b[1..]);
      if a[1..] == b[1..] {
        assert a == [a[0]] + a[1..] == b;
      }
    }
  }

  lemma {:induction false} LessIsTransitive(a: string, b: string, c: string)
    requires Less(a, b) && Less(b, c)
    ensures Less(a, c)
  {
    if a != "" && a[0] == b[0] == c[0] {
      LessIsTransitive(a[1..], b[1..], c[1..]);
    }
  }

  ghost predicate IsLeast(k: string, names: set<string>) {
    k in names && forall other :: other in names ==> other == k || Less(k, other)
  }

  lemma {:induction false} Least(names: set<string>) returns (k: string)
    requires names != {}
    ensures IsLeast(k, names)
  {
    var n :| n in names;
    if names == {n} {
      k := n;
    } else {
      var m := Least(names - {n});
      LessIsTotal(n, m);
      if Less(n, m) {
        k := n;
        forall other | other in names && other != n && other != m ensures Less(n, other) {
          LessIsTransitive(n, m, other);
        }
      } else {
        k := m;
      }
    }
  }

  /** A strictly ascending list of names that all come before the remaining ones. */
  ghost predicate AscendingBelow(list: seq<string>, rest: set<string>) {
    && (forall i, j :: 0 <= i < j < |list| ==> Less(list[i], list[j]))
    && (forall i, k :: 0 <= i < |list| && k in rest ==> Less(list[i], k))
  }

  lemma AppendLeast(list: seq<string>, k: string, rest: set<string>)
    requires AscendingBelow(list, rest) && IsLeast(k, rest)
    ensures AscendingBelow(list + [k], rest - {k}) && AscendingBelow(list, rest - {k})
  {
  }

  function PairFile(u: string, v: string): string {
    var a, b := Sanitised(u), Sanitised(v);
    if Less(b, a) then b + "_" + a else a + "_" + b
  }

  function PrivatePath(dir: string, u: string, v: string): string {
    dir + "/private/" + PairFile(u, v) + ".txt"
  }

  lemma PathParts(dir: string, a: string, b: string)
    ensures dir + "/private/" + a + "_" + b + ".txt" == dir + "/private/" + (a + "_" + b) + ".txt"
  {
    assert dir + "/private/" + a + "_" + b == dir + "/private/" + (a + "_" + b);
  }

  lemma PrivatePathSymmetric(dir: string, u: string, v: string)
    ensures PrivatePath(dir, u, v) == PrivatePath(dir, v, u)
  {
    LessIsTotal(Sanitised(u), Sanitised(v));
  }

  /** The file of two plain names has both as they are, the smaller one first. */
  lemma PlainNamesInPath(dir: string, u: string, v: string)
    requires u != "" && v != "" && (forall c :: c in u + v ==> Plain(c)) && Less(u, v)
    ensures PrivatePath(dir, u, v) == PrivatePath(dir, v, u) == dir + "/private/" + u + "_" + v + ".txt"
  {
    assert Sanitised(u) == u && Sanitised(v) == v by {
      assert forall i :: 0 <= i < |u| ==> u[i] in u + v;
      assert forall i :: 0 <= i < |v| ==> v[i] in u + v;
    }
    LessIsTotal(u, v);
    PathParts(dir, u, v);
  }

  // ----- when a pair has a file of its own -----

  predicate SamePair(u: string, v: string, u': string, v': string) {
    (u == u' && v == v') || (u == v' && v == u')
  }

  /** No other unordered pair of users shares the private file of this one. */
  ghost predicate OwnsItsFile(dir: string, u: string, v: string) {
    forall u', v' :: PrivatePath(dir, u', v') == PrivatePath(dir, u, v) ==> SamePair(u, v, u', v')
  }

  /** A name that is the only one with its path component. */
  predicate Distinctive(name: string) {
    name != "" && name != "unknown" && forall c :: c in name ==> Plain(c)
  }

  lemma SplitAtOnlyUnderscore(a: string, b: string, x: string, y: string)
    requires '_' !in a && '_' !in b
    requires a + "_" + b == x + "_" + y
    ensures a == x && b == y
  {
    var f := a + "_" + b;
    assert f[|x|] == '_';
    assert |x| == |a|;
    assert a == f[..|a|] == x;
    assert b == f[|a| + 1..] == y;
  }

  lemma SanitisedDistinctive(name: string)
    requires Distinctive(name)
    ensures Sanitised(name) == name && '_' !in name
  {
  }

  lemma OnlyDistinctiveSource(name: string, other: string)
    requires Distinctive(name) && Sanitised(other) == name
    ensures other == name
  {
    assert other != "";
    forall i | 0 <= i < |other| ensures other[i] == name[i] {
      assert name[i] in name;
    }
  }

  lemma PathsAgree(dir: string, u: string, v: string, u': string, v': string)
    requires PrivatePath(dir, u, v) == PrivatePath(dir, u', v')
    ensures PairFile(u, v) == PairFile(u', v')
  {
    var f, f' := PairFile(u, v), PairFile(u', v');
    var d := dir + "/private/";
    assert d + f + ".txt" == d + f' + ".txt";
    assert |f| == |f'|;
    assert f == (d + f + ".txt")[|d|..|d| + |f|];
    assert f' == (d + f' + ".txt")[|d|..|d| + |f|];
  }

  /** A name that is not distinctive shares its path component with another name. */
  lemma OtherNameWithSameComponent(name: string) returns (other: string)
    requires !Distinctive(name)
    ensures other != name && Sanitised(other) == Sanitised(name)
  {
    if name == "" {
      other := "unknown";
    } else if name == "unknown" {
      other := "";
    } else {
      var i :| 0 <= i < |name| && !Plain(name[i]);
      other := name[i := if name[i] == '_' then ' ' else '_'];
      assert Sanitised(other) == Sanitised(name);
    }
  }

  /** A pair of users has a private file of its own exactly when both names are distinctive. */
  lemma OwnsItsFileExactly(dir: string, u: string, v: string)
    ensures OwnsItsFile(dir, u, v) <==> Distinctive(u) && Distinctive(v)
  {
    if Distinctive(u) && Distinctive(v) {
      forall u', v' | PrivatePath(dir, u', v') == PrivatePath(dir, u, v) ensures SamePair(u, v, u', v') {
        SamePathSamePair(dir, u, v, u', v');
      }
    } else if !Distinctive(u) {
      var other := OtherNameWithSameComponent(u);
      assert PrivatePath(dir, other, v) == PrivatePath(dir, u, v);
      assert !SamePair(u, v, other, v);
    } else {
      var other := OtherNameWithSameComponent(v);
      assert PrivatePath(dir, u, other) == PrivatePath(dir, u, v);
      assert !SamePair(u, v, u, other);
    }
  }

  /** Two different pairs of users with one private file. */
  lemma UnderscoreSharesFile(dir: string)
    ensures PrivatePath(dir, "a_b", "c") == PrivatePath(dir, "a", "b_c") && !SamePair("a_b", "c", "a", "b_c")
  {
    assert Sanitised("a_b") == "a_b" && Sanitised("c") == "c" && Sanitised("a") == "a" && Sanitised("b_c") == "b_c";
    assert PairFile("a_b", "c") == "a_b_c" && PairFile("a", "b_c") == "a_b_c";
  }

  lemma SamePathSamePair(dir: string, u: string, v: string, u': string, v': string)
    requires Distinctive(u) && Distinctive(v)
    requires PrivatePath(dir, u', v') == PrivatePath(dir, u, v)
    ensures SamePair(u, v, u', v')
  {
    PathsAgree(dir, u', v', u, v);
    SanitisedDistinctive(u);
    SanitisedDistinctive(v);
    var x, y := Sanitised(u'), Sanitised(v');
    var (a, b) := if Less(v, u) then (v, u) else (u, v);
    if Less(y, x) {
      SplitAtOnlyUnderscore(a, b, y, x);
      OnlyDistinctiveSource(a, v');
      OnlyDistinctiveSource(b, u');
    } else {
      SplitAtOnlyUnderscore(a, b, x, y);
      OnlyDistinctiveSource(a, u');
      OnlyDistinctiveSource(b, v');
    }
  }
}
