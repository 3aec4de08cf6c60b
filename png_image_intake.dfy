/** Discovery of the input images: the case-insensitive, end-anchored `.png` name
    test and the generator that applies it to one directory of a shared walk. */
module PngIntake {
  import opened Grids

  /** One step of the directory walk: a directory, its subdirectories and its files, in listing order. */
  datatype WalkEntry = WalkEntry(root: string, dirs: seq<string>, files: seq<string>)

  datatype IntakeError = WalkExhausted

  /** The pattern `\.png` under IGNORECASE matches a four-character string: a literal dot, then p, n, g in either case. */
  predicate MatchesSuffix(s: string) {
    |s| == 4 && s[0] == '.' && (s[1] == 'p' || s[1] == 'P') &&
    (s[2] == 'n' || s[2] == 'N') && (s[3] == 'g' || s[3] == 'G')
  }

  /** The pattern `\.png` matches the four characters of the name starting at k. */
  predicate MatchesSuffixAt(name: string, k: nat) {
    k + 4 <= |name| && MatchesSuffix(name[k..k + 4])
  }

  /** The anchor `$` without MULTILINE: the end of the name, or just before a newline that ends it. */
  predicate AtEndAnchor(name: string, pos: nat) {
    pos == |name| || (pos + 1 == |name| && name[pos] == '\n')
  }

  /** Search semantics of the whole pattern: some position where `\.png` matches and `$` holds right after. */
  ghost predicate PatternFound(name: string) {
    exists k: nat :: MatchesSuffixAt(name, k) && AtEndAnchor(name, k + 4)
  }

  predicate EndsWithSuffix(s: string) {
    |s| >= 4 && MatchesSuffixAt(s, |s| - 4)
  }

  /** The name test: `.png` in any letter case ends the name, or ends it but for one final newline. */
  predicate IsPngName(name: string) {
    EndsWithSuffix(name) || (|name| > 0 && name[|name| - 1] == '\n' && EndsWithSuffix(name[..|name| - 1]))
  }

  lemma MatchesSuffixInPrefix(name: string, k: nat)
    requires |name| > 0 && k + 4 <= |name| - 1
    ensures MatchesSuffixAt(name[..|name| - 1], k) <==> MatchesSuffixAt(name, k)
  {
    assert name[..|name| - 1][k..k + 4] == name[k..k + 4];
  }

  lemma IsPngNameFindsPattern(name: string)
    requires IsPngName(name)
    ensures PatternFound(name)
  {
    if EndsWithSuffix(name) {
      var k: nat := |name| - 4;
      assert MatchesSuffixAt(name, k) && AtEndAnchor(name, k + 4);
    } else {
      var k: nat := |name| - 5;
      MatchesSuffixInPrefix(name, k);
      assert MatchesSuffixAt(name, k) && AtEndAnchor(name, k + 4);
    }
  }

  lemma PatternFoundIsPngName(name: string)
    requires PatternFound(name)
    ensures IsPngName(name)
  {
    var k: nat :| MatchesSuffixAt(name, k) && AtEndAnchor(name, k + 4);
    if k + 4 != |name| {
      MatchesSuffixInPrefix(name, k);
      assert EndsWithSuffix(name[..|name| - 1]);
    }
  }

  /** The name test is exactly the regular-expression search, in both directions. */
  lemma IsPngNameIsPatternFound(name: string)
    ensures IsPngName(name) <==> PatternFound(name)
  {
    if IsPngName(name) {
      IsPngNameFindsPattern(name);
    }
    if PatternFound(name) {
      PatternFoundIsPngName(name);
    }
  }

  /** Any letter case is accepted, and so is one trailing newline after the suffix. */
  lemma PngNamesAccepted()
    ensures IsPngName("a.png") && IsPngName("a.PNG") && IsPngName("a.Png") && IsPngName("a.png\n")
  {
    assert "a.png"[1..5] == ".png";
    assert "a.PNG"[1..5] == ".PNG";
    assert "a.Png"[1..5] == ".Png";
    assert "a.png\n"[..5] == "a.png";
  }

  /** `.png` that does not end the name, or a name too short to hold it, is rejected. */
  lemma PngNamesRejected()
    ensures !IsPngName("a.png.bak") && !IsPngName("png") && !IsPngName("apng") && !IsPngName("a.png\n\n")
  {
    assert "a.png.bak"[5..9] == ".bak";
    assert !MatchesSuffix(".bak");
    assert "apng"[0..4] == "apng";
    assert !MatchesSuffix("apng");
    assert "a.png\n\n"[3..7] == "ng\n\n";
    assert !MatchesSuffix("ng\n\n");
    assert "a.png\n\n"[..6] == "a.png\n";
    assert "a.png\n"[2..6] == "png\n";
    assert !MatchesSuffix("png\n");
  }

  /** The files of one listing that pass the name test, in listing order. */
  function PngFiles(files: seq<string>): seq<string> {
    if files == [] then []
    else (if IsPngName(files[0]) then [files[0]] else []) + PngFiles(files[1..])
  }

  /** Filtering a concatenated listing filters each part and keeps their order. */
  lemma {:induction false} PngFilesAppend(a: seq<string>, b: seq<string>)
    ensures PngFiles(a + b) == PngFiles(a) + PngFiles(b)
  {
    if a != [] {
      var head := if IsPngName(a[0]) then [a[0]] else [];
      calc {
        PngFiles(a + b);
        { assert (a + b)[0] == a[0]; assert (a + b)[1..] == a[1..] + b; }
        head + PngFiles(a[1..] + b);
        { PngFilesAppend(a[1..], b); }
        head + (PngFiles(a[1..]) + PngFiles(b));
        (head + PngFiles(a[1..])) + PngFiles(b);
      }
    } else {
      assert a + b == b;
    }
  }

  /** A name is yielded exactly when it is listed and passes the name test. */
  lemma {:induction false} PngFilesMember(files: seq<string>, x: string)
    ensures x in PngFiles(files) <==> x in files && IsPngName(x)
  {
    if files != [] {
      PngFilesMember(files[1..], x);
      assert files == [files[0]] + files[1..];
    }
  }

  /** Each listed matching name is yielded as often as it is listed; a non-matching name never is. */
  lemma {:induction false} PngFilesCount(files: seq<string>, x: string)
    ensures multiset(PngFiles(files))[x] == if IsPngName(x) then multiset(files)[x] else 0
  {
    if files != [] {
      PngFilesCount(files[1..], x);
      assert files == [files[0]] + files[1..];
      assert multiset(files) == multiset([files[0]]) + multiset(files[1..]);
    }
  }

  /** The generator's loop over one listing: keep each name that passes the test, in order. */
  method SelectPngFiles(files: seq<string>) returns (yielded: seq<string>)
    ensures yielded == PngFiles(files)
  {
    yielded := [];
    var i := 0;
    while i < |files|
      invariant 0 <= i <= |files|
      invariant yielded == PngFiles(files[..i])
    {
      var file := files[i];
      PngFilesAppend(files[..i], [file]);
      assert files[..i + 1] == files[..i] + [file];
      if IsPngName(file) {
        yielded := yielded + [file];
      }
      i := i + 1;
    }
    assert files[..i] == files;
  }

  /** The intake. `walker` holds the walk entries not produced yet; every generator consumes one of them. */
  class PngImageIntake {
    var walker: seq<WalkEntry>

    /** The walk of the source directory, which produces the directory itself first. */
    constructor (walk: seq<WalkEntry>)
      ensures walker == walk
    {
      walker := walk;
    }

    /** Runs one generator to its end: the next walk entry is taken and its matching files are yielded in order. */
    method FileGenerator() returns (r: Result<seq<string>, IntakeError>)
      modifies this
      ensures old(walker) == [] ==> r == Err(WalkExhausted) && walker == []
      ensures old(walker) != [] ==> r == Ok(PngFiles(old(walker)[0].files)) && walker == old(walker)[1..]
    {
      if walker == [] {
        return Err(WalkExhausted);
      }
      var entry := walker[0];
      walker := walker[1..];
      var names := SelectPngFiles(entry.files);
      r := Ok(names);
    }
  }

  /** Two generators of one intake list two successive directories of the walk, never a subdirectory's files early. */
  method SharedWalker(top: WalkEntry, sub: WalkEntry)
  {
    var intake := new PngImageIntake([top, sub]);
    var first := intake.FileGenerator();
    assert first == Ok(PngFiles(top.files));
    var second := intake.FileGenerator();
    assert second == Ok(PngFiles(sub.files));
    var third := intake.FileGenerator();
    assert third == Err(WalkExhausted);
  }
}
