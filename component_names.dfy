/** How the export generator turns the listing of `src/components` into
    component names: keep the files ending in ".tsx", remove the first
    ".tsx" from each name, and sort with the default `Array.prototype.sort`
    order, which compares strings character by character; here a character
    is a Unicode scalar value rather than a UTF-16 code unit. */
module ComponentNames {

  /** JavaScript `a < b` on strings: lexicographic by character, a proper
      prefix coming first. */
  predicate Below(a: string, b: string)
  {
    if a == [] then b != []
    else b != [] && (a[0] < b[0] || (a[0] == b[0] && Below(a[1..], b[1..])))
  }

  predicate AtMost(a: string, b: string)
  {
    a == b || Below(a, b)
  }

  lemma {:induction false} BelowIrreflexive(a: string)
    ensures !Below(a, a)
  {
    if a != [] { BelowIrreflexive(a[1..]); }
  }

  lemma {:induction false} BelowTotal(a: string, b: string)
    ensures a == b || Below(a, b) || Below(b, a)
  {
    if a != [] && b != [] && a[0] == b[0] {
      BelowTotal(a[1..], b[1..]);
      if a[1..] == b[1..] {
        assert a == [a[0]] + a[1..] && b == [b[0]] + b[1..];
      }
    }
  }

  lemma {:induction false} BelowTransitive(a: string, b: string, c: string)
    requires Below(a, b) && Below(b, c)
    ensures Below(a, c)
  {
    if a != [] && a[0] == b[0] && b[0] == c[0] {
      BelowTransitive(a[1..], b[1..], c[1..]);
    }
  }

  lemma AtMostTransitive(a: string, b: string, c: string)
    requires AtMost(a, b) && AtMost(b, c)
    ensures AtMost(a, c)
  {
    if a != b && b != c { BelowTransitive(a, b, c); }
  }

  predicate Sorted(s: seq<string>)
  {
    forall i, j :: 0 <= i < j < |s| ==> AtMost(s[i], s[j])
  }

  function Insert(x: string, s: seq<string>): (r: seq<string>)
    requires Sorted(s)
    ensures Sorted(r)
    ensures multiset(r) == multiset(s) + multiset{x}
  {
    if s == [] then [x]
    else if AtMost(x, s[0]) then
      assert forall j :: 0 <= j < |s| ==> AtMost(x, s[j]) by {
        forall j | 0 <= j < |s| ensures AtMost(x, s[j]) {
          AtMostTransitive(x, s[0], s[j]);
        }
      }
      [x] + s
    else
      var rest := Insert(x, s[1..]);
      BelowTotal(x, s[0]);
      assert forall j :: 0 <= j < |rest| ==> AtMost(s[0], rest[j]) by {
        forall j | 0 <= j < |rest| ensures AtMost(s[0], rest[j]) {
          assert rest[j] in multiset(rest);
          assert rest[j] == x || rest[j] in multiset(s[1..]);
          if rest[j] != x {
            var k :| 0 <= k < |s[1..]| && s[1..][k] == rest[j];
            assert s[k + 1] == rest[j];
          }
        }
      }
      assert s == [s[0]] + s[1..];
      [s[0]] + rest
  }

  /** The default sort of a list of strings. */
  function Sort(s: seq<string>): (r: seq<string>)
    ensures Sorted(r)
    ensures multiset(r) == multiset(s)
  {
    if s == [] then []
    else
      assert s == [s[0]] + s[1..];
      Insert(s[0], Sort(s[1..]))
  }

  predicate EndsWithTsx(file: string)
  {
    |file| >= 4 && file[|file| - 4..] == ".tsx"
  }

  predicate OccursAt(s: string, pattern: string, j: nat)
  {
    j + |pattern| <= |s| && s[j..j + |pattern|] == pattern
  }

  /** `s.indexOf(pattern)`: the first position where `pattern` occurs, or -1. */
  function IndexOf(s: string, pattern: string, from: nat := 0): (i: int)
    requires from <= |s|
    ensures i == -1 || from <= i <= |s| - |pattern|
    ensures i >= 0 ==> OccursAt(s, pattern, i)
    ensures i >= 0 ==> forall j :: from <= j < i ==> !OccursAt(s, pattern, j)
    ensures i == -1 ==> forall j :: from <= j ==> !OccursAt(s, pattern, j)
    decreases |s| - from
  {
    if from + |pattern| > |s| then -1
    else if s[from..from + |pattern|] == pattern then from
    else IndexOf(s, pattern, from + 1)
  }

  /** The first occurrence, told apart by its defining property. */
  lemma IndexOfIs(s: string, pattern: string, i: nat)
    requires OccursAt(s, pattern, i)
    requires forall j :: 0 <= j < i ==> !OccursAt(s, pattern, j)
    ensures IndexOf(s, pattern) == i
  {
  }

  /** `file.replace('.tsx', '')`: a string pattern replaces its first occurrence only. */
  function StripTsx(file: string): (name: string)
    ensures IndexOf(file, ".tsx") >= 0 ==> |name| == |file| - 4
  {
    var i := IndexOf(file, ".tsx");
    if i < 0 then file else file[..i] + file[i + 4..]
  }

  /** The four characters removed are those of the first ".tsx", wherever
      it sits in the name. */
  lemma StripRemovesFirst(file: string, i: nat)
    requires OccursAt(file, ".tsx", i)
    requires forall j :: 0 <= j < i ==> !OccursAt(file, ".tsx", j)
    ensures StripTsx(file) == file[..i] + file[i + 4..]
  {
    IndexOfIs(file, ".tsx", i);
  }

  /** A name without ".tsx" is left as it is. */
  lemma StripWithoutTsx(file: string)
    requires forall j :: !OccursAt(file, ".tsx", j)
    ensures StripTsx(file) == file
  {
  }

  function TsxFiles(files: seq<string>): (r: seq<string>)
    ensures |r| <= |files|
    ensures forall f :: f in r <==> f in files && EndsWithTsx(f)
    ensures forall f :: multiset(r)[f] == if EndsWithTsx(f) then multiset(files)[f] else 0
  {
    if files == [] then []
    else
      assert files == [files[0]] + files[1..];
      (if EndsWithTsx(files[0]) then [files[0]] else []) + TsxFiles(files[1..])
  }

  function StripAll(files: seq<string>): (r: seq<string>)
    ensures |r| == |files|
    ensures forall i :: 0 <= i < |files| ==> r[i] == StripTsx(files[i])
  {
    if files == [] then [] else [StripTsx(files[0])] + StripAll(files[1..])
  }

  /** The component names derived from a directory listing. */
  function Components(files: seq<string>): (names: seq<string>)
    ensures Sorted(names)
    ensures multiset(names) == multiset(StripAll(TsxFiles(files)))
  {
    Sort(StripAll(TsxFiles(files)))
  }

  lemma StrippedMembers(tsx: seq<string>, n: string)
    ensures n in StripAll(tsx) <==> exists f :: f in tsx && StripTsx(f) == n
  {
  }

  /** One name per ".tsx" file, and a name exactly when some ".tsx" file yields it. */
  lemma ComponentsFromTsxFiles(files: seq<string>)
    ensures |Components(files)| == |TsxFiles(files)|
    ensures forall n :: n in Components(files) <==> exists f :: f in files && EndsWithTsx(f) && StripTsx(f) == n
  {
    var tsx := TsxFiles(files);
    var names := Components(files);
    assert |names| == |StripAll(tsx)| by {
      assert |multiset(names)| == |multiset(StripAll(tsx))|;
    }
    forall n ensures n in names <==> exists f :: f in files && EndsWithTsx(f) && StripTsx(f) == n {
      assert n in names <==> n in multiset(StripAll(tsx));
      StrippedMembers(tsx, n);
    }
  }

  /** A file ending in ".tsx" always holds an occurrence of ".tsx", so its
      name is exactly four characters shorter. */
  lemma TsxNameIsShorter(file: string)
    requires EndsWithTsx(file)
    ensures |StripTsx(file)| == |file| - 4
  {
    assert OccursAt(file, ".tsx", |file| - 4);
  }

  /** The first ".tsx" is removed, not the suffix: "A.tsx.tsx" names the component "A.tsx". */
  lemma FirstOccurrenceIsRemoved()
    ensures Components(["A.tsx.tsx"]) == ["A.tsx"]
  {
    var f := "A.tsx.tsx";
    assert OccursAt(f, ".tsx", 1);
    assert !OccursAt(f, ".tsx", 0) by { assert f[0] != '.'; }
    IndexOfIs(f, ".tsx", 1);
    assert StripTsx(f) == "A.tsx";
    assert TsxFiles([f]) == [f];
    assert StripAll([f]) == ["A.tsx"];
    assert Components([f]) == Sort(["A.tsx"]);
  }

  /** Files with other extensions are ignored, and the names come out sorted. */
  lemma ListingExample()
    ensures Components(["Button.tsx", "README.md", "Accordion.tsx"]) == ["Accordion", "Button"]
  {
    TsxExample();
    StripExample();
    SortExample();
  }

  lemma TsxExample()
    ensures TsxFiles(["Button.tsx", "README.md", "Accordion.tsx"]) == ["Button.tsx", "Accordion.tsx"]
  {
    var files: seq<string> := ["Button.tsx", "README.md", "Accordion.tsx"];
    assert EndsWithTsx(files[0]) && !EndsWithTsx(files[1]) && EndsWithTsx(files[2]);
    assert TsxFiles(files[2..]) == [files[2]];
    assert TsxFiles(files[1..]) == TsxFiles(files[2..]) by { assert files[1..][1..] == files[2..]; }
  }

  lemma StripExample()
    ensures StripAll(["Button.tsx", "Accordion.tsx"]) == ["Button", "Accordion"]
  {
    NoEarlierOccurrence("Button.tsx", 6);
    NoEarlierOccurrence("Accordion.tsx", 9);
    assert StripTsx("Button.tsx") == "Button";
    assert StripTsx("Accordion.tsx") == "Accordion";
  }

  lemma SortExample()
    ensures Sort(["Button", "Accordion"]) == ["Accordion", "Button"]
  {
  }

  lemma NoEarlierOccurrence(file: string, i: nat)
    requires i + 4 == |file| && file[i..] == ".tsx" && '.' !in file[..i]
    ensures IndexOf(file, ".tsx") == i
  {
    forall j | 0 <= j < i ensures !OccursAt(file, ".tsx", j) {
      assert file[j] == file[..i][j];
    }
    assert file[i..i + 4] == file[i..];
    IndexOfIs(file, ".tsx", i);
  }
}
