/** Small value types and list facts shared by the other modules. */
module Prelude {

  /** Identifiers (cuid strings in the database) are only ever compared for equality. */
  type Id = nat

  datatype Option<+T> = None | Some(value: T) {
    function GetOr(default: T): T {
      if Some? then value else default
    }
  }

  predicate NoDup<T(==)>(s: seq<T>) {
    forall i, j :: 0 <= i < j < |s| ==> s[i] != s[j]
  }

  ghost function Elems<T>(s: seq<T>): set<T> {
    set x | x in s
  }

  /** `[...new Set(s)]`: the first occurrence of every element, in order. */
  function Dedup<T(==,!new)>(s: seq<T>): (r: seq<T>)
    ensures NoDup(r)
    ensures forall x :: x in r <==> x in s
    ensures NoDup(s) ==> r == s
  {
    if s == [] then []
    else
      var front := Dedup(s[..|s| - 1]);
      assert s == s[..|s| - 1] + [s[|s| - 1]];
      if s[|s| - 1] in front then front else front + [s[|s| - 1]]
  }

  lemma {:induction false} NoDupSize<T(!new)>(s: seq<T>, bound: set<T>)
    requires NoDup(s) && forall x :: x in s ==> x in bound
    ensures |s| <= |bound|
  {
    if s != [] {
      var last := s[|s| - 1];
      assert forall x :: x in s[..|s| - 1] ==> x in bound - {last};
      NoDupSize(s[..|s| - 1], bound - {last});
    }
  }

  lemma {:induction false} ElemsSize<T>(s: seq<T>)
    ensures |Elems(s)| <= |s|
  {
    if s == [] {
      assert Elems(s) == {};
    } else {
      ElemsSize(s[..|s| - 1]);
      assert Elems(s) <= Elems(s[..|s| - 1]) + {s[|s| - 1]};
      SubsetSize(Elems(s), Elems(s[..|s| - 1]) + {s[|s| - 1]});
    }
  }

  lemma SubsetSize<T>(a: set<T>, b: set<T>)
    requires a <= b
    ensures |a| <= |b|
  {
    assert b == a + (b - a);
  }

  /** JavaScript white space and line terminators, as `String.prototype.trim` removes them. */
  predicate IsSpace(c: char) {
    c in ['\t', '\n', '\U{0B}', '\U{0C}', '\r', ' ', '\U{A0}', '\U{1680}', '\U{2028}', '\U{2029}', '\U{202F}',
          '\U{205F}', '\U{3000}', '\U{FEFF}'] || '\U{2000}' <= c <= '\U{200A}'
  }

  /** The same by code: white space and line terminators of sections 12.2 and 12.3 of ECMA-262. */
  lemma SpaceCodes(c: char)
    ensures var n := c as int;
      IsSpace(c) <==>
        || 9 <= n <= 13 || 8192 <= n <= 8202
        || n in [32, 160, 5760, 8232, 8233, 8239, 8287, 12288, 65279]
  {
  }

  function TrimStart(s: string): string {
    if s != "" && IsSpace(s[0]) then TrimStart(s[1..]) else s
  }

  function TrimEnd(s: string): string {
    if s != "" && IsSpace(s[|s| - 1]) then TrimEnd(s[..|s| - 1]) else s
  }

  function Trim(s: string): string {
    TrimEnd(TrimStart(s))
  }

  lemma {:induction false} TrimStartDone(s: string)
    ensures TrimStart(s) == "" || !IsSpace(TrimStart(s)[0])
  {
    if s != "" && IsSpace(s[0]) {
      TrimStartDone(s[1..]);
    }
  }

  lemma {:induction false} TrimEndDone(s: string)
    ensures TrimEnd(s) <= s
    ensures TrimEnd(s) == "" || !IsSpace(TrimEnd(s)[|TrimEnd(s)| - 1])
  {
    if s != "" && IsSpace(s[|s| - 1]) {
      TrimEndDone(s[..|s| - 1]);
    }
  }

  /** Trimming a second time changes nothing. */
  lemma TrimIsTrimmed(s: string)
    ensures Trim(Trim(s)) == Trim(s)
  {
    TrimStartDone(s);
    TrimEndDone(TrimStart(s));
    var t := Trim(s);
    assert t != "" ==> !IsSpace(t[0]);
    assert TrimStart(t) == t;
  }

  lemma {:induction false} TrimStartCuts(s: string) returns (i: nat)
    ensures i <= |s| && TrimStart(s) == s[i..] && forall k :: 0 <= k < i ==> IsSpace(s[k])
  {
    if s != "" && IsSpace(s[0]) {
      i := TrimStartCuts(s[1..]);
      assert forall k :: 0 < k <= i ==> s[k] == s[1..][k - 1];
      i := i + 1;
    } else {
      i := 0;
    }
  }

  lemma {:induction false} TrimEndCuts(s: string) returns (j: nat)
    ensures j <= |s| && TrimEnd(s) == s[..j] && forall k :: j <= k < |s| ==> IsSpace(s[k])
  {
    if s != "" && IsSpace(s[|s| - 1]) {
      j := TrimEndCuts(s[..|s| - 1]);
      assert s[..|s| - 1][..j] == s[..j];
    } else {
      j := |s|;
    }
  }

  /** `trim` cuts off white space at both ends, all of it and nothing else. */
  lemma TrimCuts(s: string) returns (i: nat, j: nat)
    ensures i <= j <= |s| && Trim(s) == s[i..j]
    ensures (forall k :: 0 <= k < i ==> IsSpace(s[k])) && (forall k :: j <= k < |s| ==> IsSpace(s[k]))
    ensures Trim(s) != "" ==> !IsSpace(Trim(s)[0]) && !IsSpace(Trim(s)[|Trim(s)| - 1])
  {
    i := TrimStartCuts(s);
    var t := TrimStart(s);
    var n := TrimEndCuts(t);
    j := i + n;
    assert t[..n] == s[i..j];
    forall k | j <= k < |s|
      ensures IsSpace(s[k])
    {
      assert s[k] == t[k - i];
    }
    TrimStartDone(s);
    TrimEndDone(t);
  }
}
