/** The window title the editor derives from its file path: the label of the
    editor followed by the last segment of the path, or a "new file" label when
    there is no path. */
module WindowTitle {
  import opened Nullable

  /** Label shown before the file name. */
  const Prefix: string := "Редактор - "

  /** Title of a document that has no (truthy) path. */
  const NewFileTitle: string := "Редактор - Новый файл"

  /** The character class `[\\/]` the path is split on. */
  predicate IsSeparator(c: char)
  {
    c == '/' || c == '\\'
  }

  predicate HasNoSeparator(s: string)
  {
    forall i :: 0 <= i < |s| ==> !IsSeparator(s[i])
  }

  /** The separator characters of `s`, in order. */
  function Separators(s: string): string
  {
    if s == [] then [] else (if IsSeparator(s[0]) then [s[0]] else []) + Separators(s[1..])
  }

  /** The pieces put back together, with `seps[k]` between pieces `k` and `k + 1`. */
  function Join(parts: seq<string>, seps: string): string
    requires |parts| == |seps| + 1
    decreases |seps|
  {
    if seps == [] then parts[0] else parts[0] + [seps[0]] + Join(parts[1..], seps[1..])
  }

  /** Adding a character to the front of the first piece adds it to the front
      of the joined string. */
  lemma JoinExtendsFirstPiece(c: char, parts: seq<string>, seps: string)
    requires |parts| == |seps| + 1
    ensures Join([[c] + parts[0]] + parts[1..], seps) == [c] + Join(parts, seps)
  {
    if seps != [] {
      assert ([[c] + parts[0]] + parts[1..])[1..] == parts[1..];
    }
  }

  /** `s.split(/[\\/]/)`: the pieces of `s` between separators, empty pieces
      included. There is one piece more than separators, no piece holds a
      separator, and joining the pieces with the separators of `s` gives `s`
      back, which fixes the pieces and their order. */
  function Split(s: string): (parts: seq<string>)
    ensures |parts| == |Separators(s)| + 1
    ensures forall k :: 0 <= k < |parts| ==> HasNoSeparator(parts[k])
    ensures Join(parts, Separators(s)) == s
    ensures |parts| == 1 <==> HasNoSeparator(s)
    ensures |parts| == 1 ==> parts[0] == s
  {
    if s == [] then [[]]
    else
      var rest := Split(s[1..]);
      if IsSeparator(s[0]) then
        assert ([[]] + rest)[1..] == rest;
        [[]] + rest
      else
        JoinExtendsFirstPiece(s[0], rest, Separators(s[1..]));
        assert Separators(s) == Separators(s[1..]);
        assert [s[0]] + s[1..] == s;
        [[s[0]] + rest[0]] + rest[1..]
  }

  /** `path.split(/[\\/]/).pop()`: the last piece. The split never yields an
      empty array, so `pop` always returns a string. The name holds no
      separator, and it is the whole path exactly when the path has none. */
  function FileName(path: string): (name: string)
    ensures HasNoSeparator(name)
    ensures name == path <==> HasNoSeparator(path)
  {
    var parts := Split(path);
    parts[|parts| - 1]
  }

  /** `name` is the final segment of `path`: a separator-free suffix of `path`
      that is either all of `path` or is preceded by a separator. */
  predicate IsFinalSegment(path: string, name: string)
  {
    |name| <= |path| && path[|path| - |name|..] == name && HasNoSeparator(name) &&
    (|name| < |path| ==> IsSeparator(path[|path| - |name| - 1]))
  }

  /** The piece `pop` returns is the text after the last separator. */
  lemma {:induction false} FileNameIsFinalSegment(path: string)
    ensures IsFinalSegment(path, FileName(path))
  {
    if path != [] {
      var tail := path[1..];
      FileNameIsFinalSegment(tail);
      FileNameOfLongerPath(path);
      if IsSeparator(path[0]) || !HasNoSeparator(tail) {
        FinalSegmentOfTail(path, FileName(tail));
      }
    }
  }

  /** How the file name of `path` relates to that of `path[1..]`: the same
      when `path[1..]` holds a separator or `path` starts with one, and all of
      `path` otherwise. */
  lemma FileNameOfLongerPath(path: string)
    requires path != []
    ensures IsSeparator(path[0]) || !HasNoSeparator(path[1..]) ==> FileName(path) == FileName(path[1..])
    ensures !IsSeparator(path[0]) && HasNoSeparator(path[1..]) ==> FileName(path) == path
  {
    var rest := Split(path[1..]);
    if IsSeparator(path[0]) {
      assert Split(path) == [[]] + rest;
    } else {
      assert Split(path) == [[path[0]] + rest[0]] + rest[1..];
    }
  }

  /** The final segment of `path[1..]` is also that of `path`, unless it is
      all of `path[1..]` and `path[0]` is not a separator. */
  lemma FinalSegmentOfTail(path: string, name: string)
    requires |path| > 0 && IsFinalSegment(path[1..], name)
    requires |name| == |path| - 1 ==> IsSeparator(path[0])
    ensures IsFinalSegment(path, name)
  {
  }

  /** The file name is exactly the final segment: `pop` returns a name if and
      only if that name is the text after the last separator. */
  lemma FileNameCharacterized(path: string, name: string)
    ensures FileName(path) == name <==> IsFinalSegment(path, name)
  {
    FileNameIsFinalSegment(path);
  }

  /** A path ending in a separator has an empty file name. */
  lemma EmptyNameAfterTrailingSeparator(path: string)
    requires |path| > 0 && IsSeparator(path[|path| - 1])
    ensures FileName(path) == ""
  {
    FileNameIsFinalSegment(path);
  }

  /** The title effect: the "new file" title for a `null` or empty path,
      otherwise the label followed by the path's final segment. */
  function Title(filePath: Option<string>): (title: string)
    ensures !Truthy(filePath) ==> title == NewFileTitle
    ensures Truthy(filePath) ==>
      |title| >= |Prefix| && title[..|Prefix|] == Prefix &&
      IsFinalSegment(filePath.value, title[|Prefix|..])
  {
    if Truthy(filePath) then
      FileNameIsFinalSegment(filePath.value);
      Prefix + FileName(filePath.value)
    else
      NewFileTitle
  }
}
