/**
A name for a new file that no file in its folder has, whatever the case of its
letters: Windows folders compare names without it.
*/
module FreeName {
  import opened Common

  // strings.ToLower changes one character at a time, and no digit.
  ghost predicate Lowers(lower: char -> char) {
    forall c: char :: '0' <= c <= '9' ==> lower(c) == c
  }

  function Lower(lower: char -> char, s: string): (r: string)
    ensures |r| == |s| && forall i :: 0 <= i < |r| ==> r[i] == lower(s[i])
  {
    seq(|s|, i requires 0 <= i < |s| => lower(s[i]))
  }

  // path.Ext: from the last dot of the last path element, if it has one.
  function Ext(s: string): (ext: string)
    ensures |ext| <= |s| && ext == s[|s| - |ext|..]
  {
    if |s| == 0 || s[|s| - 1] == '/' then ""
    else if s[|s| - 1] == '.' then "."
    else
      var shorter := Ext(s[..|s| - 1]);
      if shorter == "" then "" else shorter + [s[|s| - 1]]
  }

  function Stem(s: string): string {
    s[..|s| - |Ext(s)|]
  }

  function Number(n: nat): string {
    " (" + Decimal(n) + ")"
  }

  function Numbered(name: string, n: nat): string {
    Stem(name) + Number(n) + Ext(name)
  }

  predicate Taken(lower: char -> char, taken: seq<string>, s: string) {
    exists i :: 0 <= i < |taken| && Lower(lower, taken[i]) == Lower(lower, s)
  }

  predicate TakenNumber(lower: char -> char, taken: seq<string>, name: string, n: nat) {
    Taken(lower, taken, Numbered(name, n))
  }

  // Main result: it ends whatever is taken, and the name it returns is free
  // without regard to case: the given one if that is free, and otherwise the
  // least numbered one that is.
  method Free(lower: char -> char, name: string, taken: seq<string>) returns (r: string, ghost n: nat)
    requires Lowers(lower)
    ensures !Taken(lower, taken, r)
    ensures if !Taken(lower, taken, name) then r == name else r == Numbered(name, n) && 2 <= n <= |taken| + 2
    ensures Taken(lower, taken, name) ==> forall k :: 2 <= k < n ==> TakenNumber(lower, taken, name, k)
  {
    var used := Used(lower, taken);
    n := 0;
    if Lower(lower, name) !in used {
      return name, 0;
    }
    r, n := LeastFree(lower, name, used);
    forall k | 2 <= k < n
      ensures TakenNumber(lower, taken, name, k)
    {
      assert Key(lower, name, k) in used;
    }
  }

  // How the folder sees the n-th candidate.
  function Key(lower: char -> char, name: string, n: nat): string {
    Lower(lower, Numbered(name, n))
  }

  method LeastFree(lower: char -> char, name: string, used: set<string>) returns (r: string, ghost n: nat)
    requires Lowers(lower)
    ensures r == Numbered(name, n) && Key(lower, name, n) !in used && 2 <= n <= |used| + 2
    ensures forall k :: 2 <= k < n ==> Key(lower, name, k) in used
  {
    var ext := Ext(name);
    var stem := Stem(name);
    var k := 2;
    while true
      invariant k >= 2
      invariant forall i :: 2 <= i < k ==> Key(lower, name, i) in used
      decreases |used| + 2 - k
    {
      TriedFit(lower, name, k, used);
      var c := stem + Number(k) + ext;
      if Lower(lower, c) !in used {
        return c, k;
      }
      k := k + 1;
      TriedFit(lower, name, k, used);
    }
  }

  // The candidates tried so far differ, so there are no more of them than names.
  lemma TriedFit(lower: char -> char, name: string, k: nat, used: set<string>)
    requires Lowers(lower) && k >= 2 && forall i :: 2 <= i < k ==> Key(lower, name, i) in used
    ensures k - 2 <= |used|
  {
    var key := (n: nat) => Key(lower, name, n);
    forall i, j | 2 <= i < j < k
      ensures key(i) != key(j)
    {
      NumberedDiffer(lower, name, i, j);
    }
    DistinctFit(key, k, used);
  }

  lemma {:induction false} DistinctFit(key: nat -> string, k: nat, used: set<string>)
    requires k >= 2
    requires forall i, j :: 2 <= i < j < k ==> key(i) != key(j)
    requires forall i :: 2 <= i < k ==> key(i) in used
    ensures k - 2 <= |used|
    decreases k
  {
    if k > 2 {
      DistinctFit(key, k - 1, used - {key(k - 1)});
      OneLess(used, key(k - 1));
    }
  }

  lemma OneLess(a: set<string>, x: string)
    requires x in a
    ensures |a - {x}| == |a| - 1
  {
  }

  method Used(lower: char -> char, taken: seq<string>) returns (used: set<string>)
    ensures forall s: string :: Lower(lower, s) in used <==> Taken(lower, taken, s)
    ensures |used| <= |taken|
  {
    used := {};
    for i := 0 to |taken|
      invariant forall s: string :: Lower(lower, s) in used <==> exists j :: 0 <= j < i && Lower(lower, taken[j]) == Lower(lower, s)
      invariant |used| <= i
    {
      used := used + {Lower(lower, taken[i])};
    }
  }

  // Different numbers make names that differ in more than case.
  lemma NumberedDiffer(lower: char -> char, name: string, m: nat, n: nat)
    requires Lowers(lower) && m != n
    ensures Key(lower, name, m) != Key(lower, name, n)
  {
    var a, b, at := Numbered(name, m), Numbered(name, n), |Stem(name)| + 2;
    if Lower(lower, a) == Lower(lower, b) {
      assert |a| == |b|;
      assert |Decimal(m)| == |Decimal(n)|;
      forall i | 0 <= i < |Decimal(m)|
        ensures Decimal(m)[i] == Decimal(n)[i]
      {
        assert a[at + i] == Decimal(m)[i] && b[at + i] == Decimal(n)[i];
        DecimalDigits(m, i);
        DecimalDigits(n, i);
        assert Lower(lower, a)[at + i] == Lower(lower, b)[at + i];
      }
      assert Decimal(m) == Decimal(n);
      DecimalInjective(m, n);
    }
  }

  // ---------------------------------------------------------------------------
  // the extension
  // ---------------------------------------------------------------------------

  predicate Plain(s: string) {
    forall i :: 0 <= i < |s| ==> s[i] != '.' && s[i] != '/'
  }

  lemma {:induction false} ExtShape(s: string)
    ensures Ext(s) != "" ==> Ext(s)[0] == '.' && Plain(Ext(s)[1..])
  {
    if |s| > 0 && s[|s| - 1] != '/' && s[|s| - 1] != '.' {
      ExtShape(s[..|s| - 1]);
    }
  }

  // What follows a dot, without one and without a slash, is the extension.
  lemma {:induction false} ExtAfterDot(s: string, tail: string)
    requires Plain(tail)
    ensures Ext(s + "." + tail) == "." + tail
    decreases |tail|
  {
    var all := s + "." + tail;
    if |tail| == 0 {
      assert all[|all| - 1] == '.';
    } else {
      assert all[..|all| - 1] == s + "." + tail[..|tail| - 1];
      ExtAfterDot(s, tail[..|tail| - 1]);
    }
  }

  lemma {:induction false} NoExtStays(s: string, tail: string)
    requires Ext(s) == "" && Plain(tail)
    ensures Ext(s + tail) == ""
    decreases |tail|
  {
    var all := s + tail;
    if |tail| == 0 {
      assert all == s;
    } else {
      assert all[..|all| - 1] == s + tail[..|tail| - 1];
      NoExtStays(s, tail[..|tail| - 1]);
    }
  }

  lemma NumberIsPlain(n: nat)
    ensures Plain(Number(n))
  {
    forall i | 0 <= i < |Decimal(n)|
      ensures Decimal(n)[i] != '.' && Decimal(n)[i] != '/'
    {
      DecimalDigits(n, i);
    }
  }

  // The number goes between the name and its extension, in brackets after a space.
  lemma NumberGoesBeforeExt(name: string, n: nat)
    ensures Numbered(name, n) == name[..|name| - |Ext(name)|] + " (" + Decimal(n) + ")" + Ext(name)
    ensures name == name[..|name| - |Ext(name)|] + Ext(name)
  {
    var stem, ext := name[..|name| - |Ext(name)|], Ext(name);
    assert stem + (" (" + Decimal(n) + ")") + ext == stem + " (" + Decimal(n) + ")" + ext;
  }

  // A numbered name has the extension of the name it was made from.
  lemma NumberedKeepsExt(name: string, n: nat)
    ensures Ext(Numbered(name, n)) == Ext(name)
  {
    ExtShape(name);
    NumberIsPlain(n);
    if Ext(name) == "" {
      assert Numbered(name, n) == name + Number(n);
      NoExtStays(name, Number(n));
    } else {
      NumberedEnds(name, n);
      ExtAfterDot(Stem(name) + Number(n), Ext(name)[1..]);
    }
  }

  lemma NumberedEnds(name: string, n: nat)
    requires Ext(name) != "" && Ext(name)[0] == '.'
    ensures Numbered(name, n) == Stem(name) + Number(n) + "." + Ext(name)[1..] && Ext(name) == "." + Ext(name)[1..]
  {
  }
}
