/** The category icon lookup of the front end: icon components are published
    under PascalCase names, re-keyed by their kebab-case form, and a category's
    stored icon name is resolved against that map with a fallback icon. */
module CategoryIcons {
  import opened Base

  /** The first replace: every ASCII capital becomes '-' and its lower case. */
  function DashCapitals(s: string): (r: string)
  {
    if s == [] then []
    else (if IsUpperAscii(s[0]) then ['-', ToLowerChar(s[0])] else [s[0]]) + DashCapitals(s[1..])
  }

  /** The second replace: every ASCII digit gets a '-' in front. */
  function DashDigits(s: string): (r: string)
  {
    if s == [] then []
    else (if IsDigitAscii(s[0]) then ['-', s[0]] else [s[0]]) + DashDigits(s[1..])
  }

  /** The third replace: one leading '-' goes. */
  function DropLeadingDash(s: string): (r: string)
    ensures |s| > 0 && s[0] == '-' ==> r == s[1..]
    ensures |s| == 0 || s[0] != '-' ==> r == s
  {
    if |s| > 0 && s[0] == '-' then s[1..] else s
  }

  /** pascalToKebab, the three replaces in turn. */
  function PascalToKebab(s: string): (r: string)
  {
    DropLeadingDash(DashDigits(DashCapitals(s)))
  }

  /** What one character of the input turns into across both dashing passes. */
  function KebabPiece(c: char): (r: string)
    ensures c != '-' ==> |r| > 0 && r[|r| - 1] == (if IsUpperAscii(c) then ToLowerChar(c) else c)
  {
    if IsUpperAscii(c) then ['-', ToLowerChar(c)]
    else if IsDigitAscii(c) then ['-', c]
    else [c]
  }

  /** Both dashing passes done in one: each character replaced by its piece. */
  function Dashed(s: string): (r: string)
    ensures forall i :: 0 <= i < |r| ==> !IsUpperAscii(r[i])
  {
    if s == [] then [] else KebabPiece(s[0]) + Dashed(s[1..])
  }

  lemma {:induction false} DashDigitsAppend(a: string, b: string)
    ensures DashDigits(a + b) == DashDigits(a) + DashDigits(b)
    decreases |a|
  {
    if a == [] {
      assert a + b == b;
    } else {
      assert (a + b)[1..] == a[1..] + b;
      DashDigitsAppend(a[1..], b);
    }
  }

  /** The digit pass finds no digit the capital pass introduced, so the two
      regular-expression passes are one character-by-character pass. */
  lemma {:induction false} TwoPassesAreOne(s: string)
    ensures DashDigits(DashCapitals(s)) == Dashed(s)
  {
    if s != [] {
      var head := if IsUpperAscii(s[0]) then ['-', ToLowerChar(s[0])] else [s[0]];
      DashDigitsAppend(head, DashCapitals(s[1..]));
      TwoPassesAreOne(s[1..]);
      if IsUpperAscii(s[0]) {
        assert DashDigits(head) == head by {
          assert head[1..][1..] == [];
        }
      } else {
        assert DashDigits(head) == KebabPiece(s[0]) by {
          assert head[1..] == [];
        }
      }
    }
  }

  /** Reads a dashed name back: '-' before a digit is dropped, '-' before a
      letter capitalises it. */
  function Undash(d: string): (r: string)
    decreases |d|
  {
    if d == [] then []
    else if d[0] == '-' && |d| >= 2 then
      (if IsDigitAscii(d[1]) then [d[1]] else [ToUpperChar(d[1])]) + Undash(d[2..])
    else [d[0]] + Undash(d[1..])
  }

  /** kebab-case back to PascalCase: the dropped leading '-' is put back. */
  function KebabToPascal(k: string): (r: string)
  {
    Undash(['-'] + k)
  }

  lemma {:induction false} UndashDashed(s: string)
    requires forall i :: 0 <= i < |s| ==> s[i] != '-'
    ensures Undash(Dashed(s)) == s
  {
    if s != [] {
      var c := s[0];
      var rest := Dashed(s[1..]);
      UndashDashed(s[1..]);
      var d := KebabPiece(c) + rest;
      if IsUpperAscii(c) || IsDigitAscii(c) {
        assert d[0] == '-' && d[2..] == rest;
      } else {
        assert d[0] == c && d[1..] == rest;
      }
    }
  }

  /** The shape of the icon library's export names: an ASCII capital first,
      no '-' anywhere. */
  ghost predicate PascalName(s: string) {
    |s| > 0 && IsUpperAscii(s[0]) && forall i :: 0 <= i < |s| ==> s[i] != '-'
  }

  /** kebab-case loses nothing on a PascalCase name. */
  lemma KebabRoundTrip(s: string)
    requires PascalName(s)
    ensures KebabToPascal(PascalToKebab(s)) == s
    ensures |PascalToKebab(s)| > 0
  {
    TwoPassesAreOne(s);
    UndashDashed(s);
    assert Dashed(s) == KebabPiece(s[0]) + Dashed(s[1..]);
    assert ['-'] + PascalToKebab(s) == Dashed(s);
  }

  /** So two icons never share a kebab-case name. */
  lemma KebabInjective(a: string, b: string)
    requires PascalName(a) && PascalName(b)
    requires PascalToKebab(a) == PascalToKebab(b)
    ensures a == b
  {
    KebabRoundTrip(a);
    KebabRoundTrip(b);
  }

  /** A kebab-case name has no capital letter left. */
  lemma KebabIsLowerCase(s: string)
    ensures forall i :: 0 <= i < |PascalToKebab(s)| ==> !IsUpperAscii(PascalToKebab(s)[i])
  {
    TwoPassesAreOne(s);
  }

  lemma ZapKebab()
    ensures PascalToKebab("Zap") == "zap"
  {
    assert Dashed("p") == "p";
    assert Dashed("ap") == "ap";
    assert Dashed("Zap") == "-zap";
    TwoPassesAreOne("Zap");
  }

  lemma ClockKebab()
    ensures PascalToKebab("Clock3") == "clock-3"
  {
    assert Dashed("3") == "-3";
    assert Dashed("k3") == "k-3";
    assert Dashed("ck3") == "ck-3";
    assert Dashed("ock3") == "ock-3";
    assert Dashed("lock3") == "lock-3";
    assert Dashed("Clock3") == "-clock-3";
    TwoPassesAreOne("Clock3");
  }

  /** Object.fromEntries over (kebab name, component): a later entry under the
      same key overwrites an earlier one. */
  function IconMap<T>(entries: seq<(string, T)>): (r: map<string, T>)
    ensures forall i :: 0 <= i < |entries| ==> PascalToKebab(entries[i].0) in r
  {
    if entries == [] then map[]
    else
      var last := entries[|entries| - 1];
      IconMap(entries[..|entries| - 1])[PascalToKebab(last.0) := last.1]
  }

  ghost predicate DistinctNames<T>(entries: seq<(string, T)>) {
    forall i, j :: 0 <= i < j < |entries| ==> entries[i].0 != entries[j].0
  }

  /** With distinct PascalCase names no entry is overwritten: each icon is
      stored under its own kebab name. */
  lemma {:induction false} IconMapAt<T>(entries: seq<(string, T)>, i: nat)
    requires forall j :: 0 <= j < |entries| ==> PascalName(entries[j].0)
    requires DistinctNames(entries)
    requires i < |entries|
    ensures IconMap(entries)[PascalToKebab(entries[i].0)] == entries[i].1
  {
    var n := |entries| - 1;
    if i < n {
      var init := entries[..n];
      assert forall j :: 0 <= j < n ==> init[j] == entries[j];
      IconMapAt(init, i);
      if PascalToKebab(entries[n].0) == PascalToKebab(entries[i].0) {
        KebabInjective(entries[n].0, entries[i].0);
        assert false;
      }
    }
  }

  /** `localeCompare` on kebab-case names, taken as code-point order:
      lexicographic, a proper prefix first. */
  predicate NameLess(a: string, b: string)
    decreases |a|
  {
    if a == [] then b != []
    else if b == [] then false
    else if a[0] != b[0] then a[0] < b[0]
    else NameLess(a[1..], b[1..])
  }

  lemma {:induction false} NameLessTotal(a: string, b: string)
    ensures a == b || NameLess(a, b) || NameLess(b, a)
    decreases |a|
  {
    if a != [] && b != [] && a[0] == b[0] {
      NameLessTotal(a[1..], b[1..]);
      if a[1..] == b[1..] {
        assert a == [a[0]] + a[1..] && b == [b[0]] + b[1..];
      }
    }
  }

  lemma {:induction false} NameLessTransitive(a: string, b: string, c: string)
    requires NameLess(a, b) && NameLess(b, c)
    ensures NameLess(a, c)
    decreases |a|
  {
    if a != [] && a[0] == b[0] && b[0] == c[0] {
      NameLessTransitive(a[1..], b[1..], c[1..]);
    }
  }

  lemma {:induction false} NameLessIrreflexive(a: string)
    ensures !NameLess(a, a)
    decreases |a|
  {
    if a != [] {
      NameLessIrreflexive(a[1..]);
    }
  }

  /** The kebab name that sorts first: the name of `categoryIconsList[0]`. */
  function LeastName<T>(entries: seq<(string, T)>): (r: string)
    requires |entries| > 0
    ensures exists i :: 0 <= i < |entries| && r == PascalToKebab(entries[i].0)
  {
    var k := PascalToKebab(entries[0].0);
    if |entries| == 1 then k
    else
      var rest := LeastName(entries[1..]);
      if NameLess(rest, k) then rest else k
  }

  /** No kebab name sorts before the least one. */
  lemma {:induction false} LeastNameIsLeast<T>(entries: seq<(string, T)>)
    requires |entries| > 0
    ensures forall j :: 0 <= j < |entries| ==> !NameLess(PascalToKebab(entries[j].0), LeastName(entries))
  {
    var k := PascalToKebab(entries[0].0);
    var r := LeastName(entries);
    NameLessIrreflexive(k);
    if |entries| > 1 {
      var rest := LeastName(entries[1..]);
      LeastNameIsLeast(entries[1..]);
      NameLessIrreflexive(rest);
      forall j | 0 <= j < |entries|
        ensures !NameLess(PascalToKebab(entries[j].0), r)
      {
        var x := PascalToKebab(entries[j].0);
        if j > 0 {
          assert entries[1..][j - 1] == entries[j];
        }
        if NameLess(x, r) {
          if NameLess(rest, k) {
            assert r == rest;
            if j == 0 {
              NameLessTransitive(rest, k, rest);
            }
          } else {
            assert r == k;
            NameLessTotal(rest, k);
            if j > 0 && rest != k {
              NameLessTransitive(x, k, rest);
            }
          }
        }
      }
    }
  }

  /** The fallback: 'zap' if present, else the first value of the map, which
      is built from the entries sorted by kebab name, so the icon whose kebab
      name sorts first. */
  function DefaultIcon<T>(entries: seq<(string, T)>): (r: Option<T>)
    ensures r.None? <==> entries == []
  {
    var m := IconMap(entries);
    if "zap" in m then Some(m["zap"])
    else if |entries| > 0 then Some(m[LeastName(entries)])
    else None
  }

  /** Without a Zap icon the fallback is the icon whose kebab name no other
      sorts before. */
  lemma DefaultIconIsFirstSorted<T>(entries: seq<(string, T)>)
    requires forall j :: 0 <= j < |entries| ==> PascalName(entries[j].0)
    requires DistinctNames(entries)
    requires |entries| > 0 && "zap" !in IconMap(entries)
    ensures exists i :: 0 <= i < |entries| && DefaultIcon(entries) == Some(entries[i].1)
                        && forall j :: 0 <= j < |entries| ==> !NameLess(PascalToKebab(entries[j].0), PascalToKebab(entries[i].0))
  {
    var i :| 0 <= i < |entries| && LeastName(entries) == PascalToKebab(entries[i].0);
    LeastNameIsLeast(entries);
    IconMapAt(entries, i);
  }

  /** getCategoryIconComponent: no icon for a null or empty name, the named
      icon when there is one, else the fallback. */
  function GetCategoryIcon<T>(entries: seq<(string, T)>, name: Option<string>): (r: Option<T>)
    ensures name.None? || name == Some("") ==> r.None?
    ensures name.Some? && name.value != "" && name.value !in IconMap(entries) ==> r == DefaultIcon(entries)
    ensures r.None? <==> name.None? || name.value == "" || entries == []
  {
    if name.None? || name.value == "" then None
    else
      var m := IconMap(entries);
      if name.value in m then Some(m[name.value]) else DefaultIcon(entries)
  }

  /** Every published icon is found under its kebab-case name. */
  lemma EveryIconReachable<T>(entries: seq<(string, T)>, i: nat)
    requires forall j :: 0 <= j < |entries| ==> PascalName(entries[j].0)
    requires DistinctNames(entries)
    requires i < |entries|
    ensures GetCategoryIcon(entries, Some(PascalToKebab(entries[i].0))) == Some(entries[i].1)
  {
    KebabRoundTrip(entries[i].0);
    IconMapAt(entries, i);
  }

  /** An unknown name falls back to the Zap icon when the library has one. */
  lemma UnknownNameIsZap<T>(entries: seq<(string, T)>, z: nat, name: string)
    requires forall j :: 0 <= j < |entries| ==> PascalName(entries[j].0)
    requires DistinctNames(entries)
    requires z < |entries| && entries[z].0 == "Zap"
    requires name != "" && name !in IconMap(entries)
    ensures GetCategoryIcon(entries, Some(name)) == Some(entries[z].1)
  {
    ZapKebab();
    IconMapAt(entries, z);
  }
}
