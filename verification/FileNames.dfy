/**
 Splitting, joining and numbering file names.  Names hold no NUL character.
 */
module FileNames {
  import opened Numerals
  import Words

  /** std::string::rfind: the last index of c, or none. */
  function LastIndex(s: string, c: char): (i: int)
    ensures -1 <= i < |s|
    ensures i >= 0 ==> s[i] == c
    ensures forall k :: i < k < |s| ==> s[k] != c
  {
    if s == "" then -1
    else if s[|s| - 1] == c then |s| - 1
    else LastIndex(s[..|s| - 1], c)
  }

  function SplitByDirectory(name: string): (string, string) {
    var i := LastIndex(name, '/');
    if i < 0 then ("", name)
    else if i == |name| - 1 then (name, "")
    else (name[..i + 1], name[i + 1..])
  }

  function SplitByExtension(name: string): (string, string) {
    var i := LastIndex(name, '.');
    if i <= 0 || i == |name| - 1 then (name, "")
    else
      var folder := LastIndex(name, '/');
      if folder >= 0 && folder >= i - 1 then (name, "") else (name[..i], name[i..])
  }

  function JoinPath(path: string, name: string): string {
    if path == "" then name
    else if name == "" then path
    else if path[|path| - 1] == '/' || path[|path| - 1] == '\\' then path + name
    else path + "/" + name
  }

  /** The "%d" of a std::size_t: its lowest 32 bits, as a signed number. */
  function Printed(index: nat): string {
    var w := index % Words.WORD;
    if w < Words.HALF then Digits(w) else "-" + Digits(Words.WORD - w)
  }

  /** annotate_filename_index. */
  function Indexed(name: string, index: nat): string {
    if index == 0 then name
    else
      var parts := SplitByExtension(name);
      parts.0 + "." + Printed(index) + parts.1
  }

  // ---- what the functions mean ----

  predicate Has(s: string, c: char) {
    exists i :: 0 <= i < |s| && s[i] == c
  }

  /** dir and file are the two parts of a path at its last separator. */
  ghost predicate IsDirectorySplit(path: string, dir: string, file: string) {
    dir + file == path && !Has(file, '/') && (dir == "" || dir[|dir| - 1] == '/')
  }

  lemma SplitIsOne(path: string)
    ensures IsDirectorySplit(path, SplitByDirectory(path).0, SplitByDirectory(path).1)
  {
    var i := LastIndex(path, '/');
    var d, f := SplitByDirectory(path).0, SplitByDirectory(path).1;
    assert d + f == path && |d| == i + 1;
    forall k | 0 <= k < |f| ensures f[k] != '/' { assert f[k] == path[i + 1 + k]; }
    if d != "" { assert d[|d| - 1] == path[i] == '/'; }
  }

  /** There is exactly one such pair, SplitByDirectory gives it, and joining it again restores the path. */
  lemma DirectorySplit(path: string, dir: string, file: string)
    ensures IsDirectorySplit(path, dir, file) <==> (dir, file) == SplitByDirectory(path)
    ensures JoinPath(SplitByDirectory(path).0, SplitByDirectory(path).1) == path
  {
    SplitIsOne(path);
    if IsDirectorySplit(path, dir, file) { SplitsAgree(path, dir, file); }
  }

  /** The directory part ends at the last separator. */
  lemma SplitsAgree(path: string, dir: string, file: string)
    requires IsDirectorySplit(path, dir, file)
    ensures |dir| == LastIndex(path, '/') + 1
    ensures dir == path[..|dir|] && file == path[|dir|..]
  {
    var i := LastIndex(path, '/');
    if dir != "" { assert path[|dir| - 1] == dir[|dir| - 1] == '/'; }
    forall k | |dir| <= k < |path| ensures path[k] != '/' { assert path[k] == file[k - |dir|]; }
  }

  /**
   An extension is a dot and more behind it, without a further dot or a separator, that follows
   something other than a separator.
   */
  ghost predicate IsExtensionSplit(name: string, base: string, ext: string) {
    && base + ext == name && |ext| > 1 && ext[0] == '.' && !Has(ext[1..], '.')
    && base != "" && base[|base| - 1] != '/' && !Has(ext, '/')
  }

  /**
   Both parts together are the name; there is an extension exactly when one can be split off, and then only
   one way.
   */
  lemma ExtensionSplit(name: string, base: string, ext: string)
    ensures SplitByExtension(name).0 + SplitByExtension(name).1 == name
    ensures IsExtensionSplit(name, base, ext) <==> (base, ext) == SplitByExtension(name) && ext != ""
  {
    if IsExtensionSplit(name, base, ext) { ExtensionIsFound(name, base, ext); }
    FoundIsExtension(name);
  }

  lemma ExtensionIsFound(name: string, base: string, ext: string)
    requires IsExtensionSplit(name, base, ext)
    ensures (base, ext) == SplitByExtension(name)
  {
    var i := |base|;
    assert name[i] == ext[0] == '.';
    forall k | i < k < |name| ensures name[k] != '.' { assert name[k] == ext[1..][k - i - 1]; }
    forall k | i - 1 <= k < |name| ensures name[k] != '/' {
      if k >= i { assert name[k] == ext[k - i]; } else { assert name[k] == base[i - 1]; }
    }
    assert LastIndex(name, '.') == i && LastIndex(name, '/') < i - 1;
    assert name[..i] == base && name[i..] == ext;
  }

  lemma FoundIsExtension(name: string)
    ensures var base, ext := SplitByExtension(name).0, SplitByExtension(name).1;
            base + ext == name && (ext != "" ==> IsExtensionSplit(name, base, ext))
  {
    var base, ext := SplitByExtension(name).0, SplitByExtension(name).1;
    if ext != "" {
      var i := |base|;
      forall k | 0 <= k < |ext| - 1 ensures ext[1..][k] != '.' { assert ext[1..][k] == name[i + 1 + k]; }
      forall k | 0 <= k < |ext| ensures ext[k] != '/' { assert ext[k] == name[i + k]; }
    }
  }

  lemma PrintedInjective(i: nat, j: nat)
    requires i < Words.WORD && j < Words.WORD && Printed(i) == Printed(j)
    ensures i == j
  {
    PrintedSign(i);
    PrintedSign(j);
    if i < Words.HALF && j < Words.HALF {
      DigitsInjective(i, j);
    } else if i >= Words.HALF && j >= Words.HALF {
      assert Printed(i)[1..] == Digits(Words.WORD - i) && Printed(j)[1..] == Digits(Words.WORD - j);
      DigitsInjective(Words.WORD - i, Words.WORD - j);
    }
  }

  lemma PrintedSign(i: nat)
    requires i < Words.WORD
    ensures Printed(i) != "" && (Printed(i)[0] == '-' <==> i >= Words.HALF)
    ensures Printed(i) == if i < Words.HALF then Digits(i) else "-" + Digits(Words.WORD - i)
  {
    if i < Words.HALF { FirstDigit(i); }
  }

  lemma {:induction false} FirstDigit(n: nat)
    ensures Digits(n) != "" && Digits(n)[0] != '-'
  {
    if n >= 10 { FirstDigit(n / 10); }
  }

  /** The numbered names of a file are all different, whatever its name, for every 32-bit number. */
  lemma IndexedInjective(name: string, i: nat, j: nat)
    requires i < Words.WORD && j < Words.WORD && Indexed(name, i) == Indexed(name, j)
    ensures i == j
  {
    var base, ext := SplitByExtension(name).0, SplitByExtension(name).1;
    FoundIsExtension(name);
    if i != 0 && j != 0 {
      NumberBetween(base + ".", Printed(i), Printed(j), ext);
      PrintedInjective(i, j);
    }
  }

  lemma NumberBetween(a: string, x: string, y: string, b: string)
    requires a + x + b == a + y + b
    ensures x == y
  {
    assert |x| == |y|;
    assert (a + x + b)[|a|..|a| + |x|] == x && (a + y + b)[|a|..|a| + |y|] == y;
  }

  /** number is the text of an index as printed: from 2^31 on it appears negative. */
  ghost predicate IsPrinted(number: string, index: nat) {
    if index < Words.HALF then IsDecimal(number, index)
    else number != "" && number[0] == '-' && index <= Words.WORD && IsDecimal(number[1..], Words.WORD - index)
  }

  /**
   The number stands behind a dot before the extension, or at the end if the name has none; number 0 is
   not shown.
   */
  lemma IndexedStands(name: string, base: string, ext: string, index: nat) returns (number: string)
    requires index < Words.WORD
    ensures IsPrinted(number, index)
    ensures Indexed(name, 0) == name
    ensures 0 < index && IsExtensionSplit(name, base, ext) ==> Indexed(name, index) == base + "." + number + ext
    ensures 0 < index && (forall b, e :: !IsExtensionSplit(name, b, e)) ==> Indexed(name, index) == name + "." + number
  {
    number := Printed(index);
    DigitsAreDecimal(if index < Words.HALF then index else Words.WORD - index);
    PrintedSign(index);
    ExtensionSplit(name, base, ext);
    var b, e := SplitByExtension(name).0, SplitByExtension(name).1;
    FoundIsExtension(name);
    if 0 < index && (forall b, e :: !IsExtensionSplit(name, b, e)) {
      assert b == name && e == "";
      assert name + "." + number + "" == name + "." + number;
    }
  }

  /** Joining puts one separator between the parts, unless the path ends with one; splitting takes them apart again. */
  lemma JoinSplits(path: string, name: string)
    requires path != "" && name != "" && !Has(name, '/')
    ensures path[|path| - 1] == '\\' ==> JoinPath(path, name) == path + name
    ensures path[|path| - 1] != '\\' ==>
              SplitByDirectory(JoinPath(path, name)) == (if path[|path| - 1] == '/' then path else path + "/", name)
  {
    if path[|path| - 1] != '\\' {
      var dir := if path[|path| - 1] == '/' then path else path + "/";
      assert JoinPath(path, name) == dir + name;
      DirectorySplit(dir + name, dir, name);
    }
  }

  /** From 2^32 on the numbers repeat. */
  lemma IndexesRepeat(name: string, i: nat)
    requires 0 < i
    ensures Indexed(name, i) == Indexed(name, i + Words.WORD)
  {
    assert (i + Words.WORD) % Words.WORD == i % Words.WORD;
  }
}
