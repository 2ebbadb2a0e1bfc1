/**
 * Target discovery (run_pretrained_openfold.py, list_files_with_extensions and the first loop of
 * main): keep the FASTA files of the input directory, parse each, drop the ones that do not suit
 * the chain mode, name each target, and order the worklist by total sequence length.
 */
module Catalog {

  /** What parse_fasta returns for one file's contents: the record tags and their sequences. */
  datatype Parsed = Parsed(tags: seq<string>, seqs: seq<string>)

  /**
   * parse_fasta is not part of this model. It is assumed to return no more sequences than tags
   * (it pairs the lines of a record after its header, and a last header may have no sequence).
   */
  type FastaContents = p: Parsed | |p.seqs| <= |p.tags| witness Parsed([], [])

  /**
   * One unit of work: the composite tag (the chain tags joined by '-'), the chain tags, the
   * chain sequences, and the file stem used to name the output directory.
   */
  datatype Target = Target(tag: string, tags: seq<string>, seqs: seq<string>, fileName: string)

  const TagSeparator: char := '-'
  const ExtensionSeparator: char := '.'

  predicate EndsWith(s: string, suffix: string) {
    |suffix| <= |s| && s[|s| - |suffix|..] == suffix
  }

  /** f.endswith((".fasta", ".fa")) */
  predicate HasFastaExtension(name: string) {
    EndsWith(name, ".fasta") || EndsWith(name, ".fa")
  }

  /** list_files_with_extensions: the directory entries with a FASTA extension, in listing order. */
  function ListFilesWithExtensions(listing: seq<string>): seq<string> {
    if listing == [] then []
    else (if HasFastaExtension(listing[0]) then [listing[0]] else []) + ListFilesWithExtensions(listing[1..])
  }

  lemma {:induction false} ListFilesMembers(listing: seq<string>)
    ensures |ListFilesWithExtensions(listing)| <= |listing|
    ensures forall f :: f in ListFilesWithExtensions(listing) <==> f in listing && HasFastaExtension(f)
  {
    if listing != [] {
      ListFilesMembers(listing[1..]);
      assert listing == [listing[0]] + listing[1..];
    }
  }

  /** sep.join(parts) */
  function Join(parts: seq<string>, sep: char): string {
    if |parts| == 0 then ""
    else if |parts| == 1 then parts[0]
    else parts[0] + [sep] + Join(parts[1..], sep)
  }

  /** s.split(sep): the pieces between separators; always at least one (possibly empty) piece. */
  function Split(s: string, sep: char): (pieces: seq<string>)
    ensures |pieces| >= 1
  {
    if |s| == 0 then [""]
    else
      var rest := Split(s[1..], sep);
      if s[0] == sep then [""] + rest else [[s[0]] + rest[0]] + rest[1..]
  }

  lemma {:induction false} SplitWithoutSeparator(a: string, sep: char)
    requires sep !in a
    ensures Split(a, sep) == [a]
  {
    if |a| > 0 {
      SplitWithoutSeparator(a[1..], sep);
      assert [a[0]] + a[1..] == a;
    }
  }

  lemma {:induction false} SplitAtSeparator(a: string, sep: char, b: string)
    requires sep !in a
    ensures Split(a + [sep] + b, sep) == [a] + Split(b, sep)
  {
    var s := a + [sep] + b;
    if |a| == 0 {
      assert s[0] == sep && s[1..] == b;
    } else {
      assert s[0] == a[0] && s[1..] == a[1..] + [sep] + b;
      SplitAtSeparator(a[1..], sep, b);
      assert [a[0]] + a[1..] == a;
    }
  }

  /**
   * Splitting the composite tag on '-' gives back the chain tags, provided there is at least one
   * and none contains '-' itself.
   */
  lemma {:induction false} JoinSplitRoundTrip(parts: seq<string>, sep: char)
    requires |parts| >= 1
    requires forall k | 0 <= k < |parts| :: sep !in parts[k]
    ensures Split(Join(parts, sep), sep) == parts
  {
    if |parts| == 1 {
      SplitWithoutSeparator(parts[0], sep);
    } else {
      JoinSplitRoundTrip(parts[1..], sep);
      SplitAtSeparator(parts[0], sep, Join(parts[1..], sep));
      assert [parts[0]] + parts[1..] == parts;
    }
  }

  /** Without that proviso the composite tag is ambiguous: one chain "A-B" and chains "A", "B" collide. */
  lemma TagCollision()
    ensures Join(["A-B"], TagSeparator) == Join(["A", "B"], TagSeparator)
  {
    assert Join(["A", "B"], TagSeparator) == "A" + "-" + "B";
  }

  /** fasta_file.split(".")[0]: the file name before its first '.'. */
  function FileStem(name: string): string {
    Split(name, ExtensionSeparator)[0]
  }

  lemma {:induction false} SplitHead(s: string, sep: char)
    ensures var h := Split(s, sep)[0];
      && |h| <= |s| && h == s[..|h|] && sep !in h
      && (|h| == |s| || s[|h|] == sep)
  {
    if |s| > 0 {
      SplitHead(s[1..], sep);
    }
  }

  /** The stem is a prefix of the name that holds no '.', and ends at the first '.' if there is one. */
  lemma StemBeforeFirstDot(name: string)
    ensures var stem := FileStem(name);
      && |stem| <= |name| && stem == name[..|stem|] && ExtensionSeparator !in stem
      && (|stem| == |name| || name[|stem|] == ExtensionSeparator)
  {
    SplitHead(name, ExtensionSeparator);
  }

  /**
   * Two FASTA files that differ only in their extension share a stem, so under one model they
   * share an output directory and the second overwrites what the first wrote.
   */
  lemma StemCollision()
    ensures HasFastaExtension("x.fasta") && HasFastaExtension("x.fa")
    ensures FileStem("x.fasta") == FileStem("x.fa") == "x"
  {
    StemBeforeFirstDot("x.fasta");
    StemBeforeFirstDot("x.fa");
    assert "x.fasta"[..2] == "x." && "x.fa"[..2] == "x.";
  }

  /** The check of line 283: outside multimer mode a file must hold exactly one record. */
  predicate Admitted(p: Parsed, isMultimer: bool) {
    isMultimer || |p.tags| == 1
  }

  function MakeTarget(fileName: string, p: Parsed): Target {
    Target(Join(p.tags, TagSeparator), p.tags, p.seqs, FileStem(fileName))
  }

  /**
   * The lists built by the loop over the FASTA files, as one list of targets. parse stands for
   * reading the named file and calling parse_fasta on its contents.
   */
  function CatalogOf(files: seq<string>, isMultimer: bool, parse: string -> FastaContents): seq<Target> {
    if files == [] then []
    else
      var last := files[|files| - 1];
      var rest := CatalogOf(files[..|files| - 1], isMultimer, parse);
      if Admitted(parse(last), isMultimer) then rest + [MakeTarget(last, parse(last))] else rest
  }

  /** A skipped file does not stop the scan: the catalog of a listing is the catalogs of its parts. */
  lemma {:induction false} CatalogAppend(a: seq<string>, b: seq<string>, isMultimer: bool, parse: string -> FastaContents)
    ensures CatalogOf(a + b, isMultimer, parse) == CatalogOf(a, isMultimer, parse) + CatalogOf(b, isMultimer, parse)
    decreases |b|
  {
    if b == [] {
      assert a + b == a;
    } else {
      var b' := b[..|b| - 1];
      assert (a + b)[..|a + b| - 1] == a + b';
      assert (a + b)[|a + b| - 1] == b[|b| - 1];
      CatalogAppend(a, b', isMultimer, parse);
    }
  }

  /** A target is in the catalog exactly when some admitted file produced it. */
  lemma {:induction false} CatalogMembers(files: seq<string>, isMultimer: bool, parse: string -> FastaContents, t: Target)
    ensures t in CatalogOf(files, isMultimer, parse) <==>
      exists i | 0 <= i < |files| :: Admitted(parse(files[i]), isMultimer) && t == MakeTarget(files[i], parse(files[i]))
  {
    if files != [] {
      var init := files[..|files| - 1];
      CatalogMembers(init, isMultimer, parse, t);
      assert forall i | 0 <= i < |init| :: init[i] == files[i];
    }
  }

  /**
   * Outside multimer mode every target has exactly one record, its tag is that record's tag, and
   * it has at most one sequence.
   */
  lemma NonMultimerSingleChain(files: seq<string>, parse: string -> FastaContents, t: Target)
    requires t in CatalogOf(files, false, parse)
    ensures |t.tags| == 1 && |t.seqs| <= 1 && t.tag == t.tags[0]
  {
    CatalogMembers(files, false, parse, t);
  }

  /** The first loop of main: append one target per admitted FASTA file. */
  method CollectTargets(listing: seq<string>, isMultimer: bool, parse: string -> FastaContents) returns (targets: seq<Target>)
    ensures targets == CatalogOf(ListFilesWithExtensions(listing), isMultimer, parse)
  {
    var files := ListFilesWithExtensions(listing);
    targets := [];
    for i := 0 to |files|
      invariant targets == CatalogOf(files[..i], isMultimer, parse)
    {
      var fastaFile := files[i];
      var parsed := parse(fastaFile);
      assert files[..i + 1][..i] == files[..i];
      if !isMultimer && |parsed.tags| != 1 {
        continue;
      }
      var tag := Join(parsed.tags, TagSeparator);
      targets := targets + [Target(tag, parsed.tags, parsed.seqs, FileStem(fastaFile))];
    }
    assert files[..|files|] == files;
  }

  // ---------------------------------------------------------------------------------------------
  // Ordering the worklist: sorted(..., key=seq_sort_fn)

  function SumLengths(seqs: seq<string>): nat {
    if seqs == [] then 0 else |seqs[0]| + SumLengths(seqs[1..])
  }

  /** seq_sort_fn: the total length of a target's chains. */
  function TotalLength(t: Target): nat {
    SumLengths(t.seqs)
  }

  predicate SortedByLength(s: seq<Target>) {
    forall i, j | 0 <= i < j < |s| :: TotalLength(s[i]) <= TotalLength(s[j])
  }

  /** The targets of s whose total length is k, in their order in s. */
  function WithLength(s: seq<Target>, k: nat): seq<Target> {
    if s == [] then []
    else (if TotalLength(s[0]) == k then [s[0]] else []) + WithLength(s[1..], k)
  }

  /** Put t before the first element that is at least as long. */
  function Insert(t: Target, s: seq<Target>): seq<Target> {
    if s == [] || TotalLength(t) <= TotalLength(s[0]) then [t] + s
    else [s[0]] + Insert(t, s[1..])
  }

  /** A stable sort by total length (Python's sorted is stable). */
  function SortByLength(s: seq<Target>): seq<Target> {
    if s == [] then [] else Insert(s[0], SortByLength(s[1..]))
  }

  /** A target no longer than the head of a sorted sequence can go in front of it. */
  lemma ConsSorted(x: Target, r: seq<Target>)
    requires SortedByLength(r)
    requires r == [] || TotalLength(x) <= TotalLength(r[0])
    ensures SortedByLength([x] + r)
  {
    forall i, j | 0 <= i < j < |r| + 1
      ensures TotalLength(([x] + r)[i]) <= TotalLength(([x] + r)[j])
    {
      assert ([x] + r)[j] == r[j - 1];
      if i > 0 {
        assert ([x] + r)[i] == r[i - 1];
      } else {
        assert TotalLength(r[0]) <= TotalLength(r[j - 1]) || j - 1 == 0;
      }
    }
  }

  lemma {:induction false} InsertFacts(t: Target, s: seq<Target>)
    ensures multiset(Insert(t, s)) == multiset(s) + multiset{t}
    ensures |Insert(t, s)| == |s| + 1
    ensures Insert(t, s)[0] == t || (s != [] && Insert(t, s)[0] == s[0])
  {
    if s != [] && TotalLength(t) > TotalLength(s[0]) {
      InsertFacts(t, s[1..]);
      assert s == [s[0]] + s[1..];
    }
  }

  lemma {:induction false} InsertSorted(t: Target, s: seq<Target>)
    requires SortedByLength(s)
    ensures SortedByLength(Insert(t, s))
  {
    if s == [] || TotalLength(t) <= TotalLength(s[0]) {
      ConsSorted(t, s);
    } else {
      assert SortedByLength(s[1..]) by {
        forall i, j | 0 <= i < j < |s| - 1 ensures TotalLength(s[1..][i]) <= TotalLength(s[1..][j]) {
          assert s[1..][i] == s[i + 1] && s[1..][j] == s[j + 1];
        }
      }
      InsertSorted(t, s[1..]);
      InsertFacts(t, s[1..]);
      var r := Insert(t, s[1..]);
      assert TotalLength(s[0]) <= TotalLength(r[0]) by {
        if r[0] != t {
          assert s[1..] != [] && r[0] == s[1..][0] == s[1];
        }
      }
      ConsSorted(s[0], r);
    }
  }

  lemma {:induction false} InsertWithLength(t: Target, s: seq<Target>, k: nat)
    ensures WithLength(Insert(t, s), k)
         == (if TotalLength(t) == k then [t] else []) + WithLength(s, k)
  {
    if s != [] && TotalLength(t) > TotalLength(s[0]) {
      InsertWithLength(t, s[1..], k);
      assert ([s[0]] + Insert(t, s[1..]))[1..] == Insert(t, s[1..]);
    } else {
      assert ([t] + s)[1..] == s;
    }
  }

  /** The worklist is non-decreasing in total length and is a permutation of the targets. */
  lemma {:induction false} SortByLengthSortedPermutation(s: seq<Target>)
    ensures SortedByLength(SortByLength(s))
    ensures multiset(SortByLength(s)) == multiset(s)
    ensures |SortByLength(s)| == |s|
  {
    if s != [] {
      SortByLengthSortedPermutation(s[1..]);
      InsertFacts(s[0], SortByLength(s[1..]));
      InsertSorted(s[0], SortByLength(s[1..]));
      assert s == [s[0]] + s[1..];
    }
  }

  /** Stability: among targets of equal length the worklist keeps discovery order. */
  lemma {:induction false} SortByLengthStable(s: seq<Target>, k: nat)
    ensures WithLength(SortByLength(s), k) == WithLength(s, k)
  {
    if s != [] {
      SortByLengthStable(s[1..], k);
      InsertWithLength(s[0], SortByLength(s[1..]), k);
    }
  }

  lemma {:induction false} WithLengthMembers(s: seq<Target>, k: nat)
    ensures forall x :: x in WithLength(s, k) <==> x in s && TotalLength(x) == k
  {
    if s != [] {
      WithLengthMembers(s[1..], k);
      assert s == [s[0]] + s[1..];
    }
  }

  lemma WithLengthOfHead(s: seq<Target>)
    requires s != []
    ensures WithLength(s, TotalLength(s[0])) != []
  {
  }

  /**
   * Sortedness and stability determine the order completely: any stable sort by total length,
   * such as Python's, yields exactly SortByLength.
   */
  lemma {:induction false} SortedStableUnique(a: seq<Target>, b: seq<Target>)
    requires SortedByLength(a) && SortedByLength(b)
    requires forall k: nat :: WithLength(a, k) == WithLength(b, k)
    ensures a == b
    decreases |a|
  {
    if a == [] || b == [] {
      var c := if a == [] then b else a;
      if c != [] {
        WithLengthOfHead(c);
      }
    } else {
      var ka, kb := TotalLength(a[0]), TotalLength(b[0]);
      WithLengthMembers(a, kb);
      WithLengthMembers(b, ka);
      assert WithLength(a, ka) != [];
      assert a[0] in WithLength(b, ka);
      assert kb <= ka;
      assert WithLength(b, kb) != [];
      assert b[0] in WithLength(a, kb);
      assert ka <= kb;
      assert WithLength(a, ka) == [a[0]] + WithLength(a[1..], ka);
      assert WithLength(b, ka) == [b[0]] + WithLength(b[1..], ka);
      assert a[0] == b[0] && WithLength(a[1..], ka) == WithLength(b[1..], ka) by {
        assert ([a[0]] + WithLength(a[1..], ka))[0] == a[0];
        assert ([a[0]] + WithLength(a[1..], ka))[1..] == WithLength(a[1..], ka);
        assert ([b[0]] + WithLength(b[1..], ka))[1..] == WithLength(b[1..], ka);
      }
      forall k: nat ensures WithLength(a[1..], k) == WithLength(b[1..], k) {
        assert WithLength(a, k) == WithLength(b, k);
        if k != ka {
          assert TotalLength(a[0]) != k && TotalLength(b[0]) != k;
          assert WithLength(a, k) == WithLength(a[1..], k);
          assert WithLength(b, k) == WithLength(b[1..], k);
        }
      }
      SortedStableUnique(a[1..], b[1..]);
      assert a == [a[0]] + a[1..] && b == [b[0]] + b[1..];
    }
  }

  /** The worklist of main: the catalog ordered by total sequence length. */
  method DiscoverTargets(listing: seq<string>, isMultimer: bool, parse: string -> FastaContents) returns (sortedTargets: seq<Target>)
    ensures sortedTargets == SortByLength(CatalogOf(ListFilesWithExtensions(listing), isMultimer, parse))
    ensures SortedByLength(sortedTargets)
    ensures multiset(sortedTargets) == multiset(CatalogOf(ListFilesWithExtensions(listing), isMultimer, parse))
  {
    var targets := CollectTargets(listing, isMultimer, parse);
    sortedTargets := SortByLength(targets);
    SortByLengthSortedPermutation(targets);
  }
}
