// Naming the zip file a model is downloaded or copied into.
module InstallFromUrl {
  import JavaString

  /** The characters removeInvalidCharacters replaces, in the order it does. */
  const Invalid: seq<char> := ['\\', '|', '/', '<', '>', ':', '"', '?', '*']

  /** String.replace of one character by '_' everywhere. */
  function ReplaceChar(s: string, c: char): (r: string)
    ensures |r| == |s|
    ensures forall k :: 0 <= k < |s| ==> r[k] == if s[k] == c then '_' else s[k]
  {
    seq(|s|, k requires 0 <= k < |s| => if s[k] == c then '_' else s[k])
  }

  /** Every character listed in cs replaced by '_'. */
  function Sanitized(s: string, cs: seq<char>): (r: string)
    ensures |r| == |s|
    ensures forall k :: 0 <= k < |s| ==> r[k] == if s[k] in cs then '_' else s[k]
  {
    seq(|s|, k requires 0 <= k < |s| => if s[k] in cs then '_' else s[k])
  }

  /** One more replacement extends the list of replaced characters. */
  lemma SanitizedStep(s: string, cs: seq<char>, c: char)
    requires c != '_'
    ensures ReplaceChar(Sanitized(s, cs), c) == Sanitized(s, cs + [c])
  {
    var a, b := ReplaceChar(Sanitized(s, cs), c), Sanitized(s, cs + [c]);
    forall k | 0 <= k < |s|
      ensures a[k] == b[k]
    {
      assert s[k] in cs + [c] <==> s[k] in cs || s[k] == c;
    }
  }

  /** removeInvalidCharacters: replaces each listed character in turn. */
  method RemoveInvalidCharacters(filename: string) returns (r: string)
    ensures r == Sanitized(filename, Invalid)
  {
    r := filename;
    var i := 0;
    while i < |Invalid|
      invariant 0 <= i <= |Invalid|
      invariant r == Sanitized(filename, Invalid[..i])
    {
      SanitizedStep(filename, Invalid[..i], Invalid[i]);
      assert Invalid[..i + 1] == Invalid[..i] + [Invalid[i]];
      r := ReplaceChar(r, Invalid[i]);
      i := i + 1;
    }
    assert Invalid[..i] == Invalid;
  }

  /** The result holds none of the invalid characters, keeps the length and
      every other character in place. */
  lemma SanitizedValid(s: string)
    ensures |Sanitized(s, Invalid)| == |s|
    ensures forall k :: 0 <= k < |s| ==> Sanitized(s, Invalid)[k] !in Invalid
    ensures forall k :: 0 <= k < |s| && s[k] !in Invalid ==> Sanitized(s, Invalid)[k] == s[k]
  {
  }

  /** Sanitising twice is sanitising once. */
  lemma {:induction false} SanitizedIdempotent(s: string)
    ensures Sanitized(Sanitized(s, Invalid), Invalid) == Sanitized(s, Invalid)
  {
    var once := Sanitized(s, Invalid);
    forall k | 0 <= k < |s|
      ensures Sanitized(once, Invalid)[k] == once[k]
    {
      assert '_' !in Invalid;
    }
  }

  /** createFileName: drops one trailing ".zip" from the name the URL or path
      gives, appends "_", the date and ".zip", sanitises, and puts the result
      in the models folder. */
  function FileName(modelsDir: string, separator: string, name: string, date: string): (r: string)
  {
    var base := if JavaString.EndsWith(name, ".zip") then name[..|name| - 4] else name;
    modelsDir + separator + Sanitized(base + "_" + date + ".zip", Invalid)
  }

  /** The file is a ".zip" in the models folder, named by the stripped name,
      "_" and the date, all sanitised. */
  lemma FileNameShape(modelsDir: string, separator: string, name: string, date: string)
    ensures var r := FileName(modelsDir, separator, name, date);
      && JavaString.StartsWith(r, modelsDir + separator)
      && JavaString.EndsWith(r, ".zip")
      && (JavaString.EndsWith(name, ".zip") ==>
            r == modelsDir + separator + Sanitized(name[..|name| - 4] + "_" + date + ".zip", Invalid))
      && (!JavaString.EndsWith(name, ".zip") ==>
            r == modelsDir + separator + Sanitized(name + "_" + date + ".zip", Invalid))
  {
    var base := if JavaString.EndsWith(name, ".zip") then name[..|name| - 4] else name;
    var t := base + "_" + date + ".zip";
    var r := FileName(modelsDir, separator, name, date);
    var p := modelsDir + separator;
    assert r == p + Sanitized(t, Invalid);
    assert r[..|p|] == p;
    forall k | 0 <= k < 4
      ensures r[|r| - 4 + k] == ".zip"[k]
    {
      assert t[|t| - 4 + k] == ".zip"[k];
    }
    assert r[|r| - 4..] == ".zip";
  }

  /** Text with no invalid character is left as it is. */
  lemma SanitizedClean(s: string)
    requires forall k :: 0 <= k < |s| ==> s[k] !in Invalid
    ensures Sanitized(s, Invalid) == s
  {
  }

  /** The name put in the models folder holds no invalid character. */
  lemma FileNameValid(modelsDir: string, separator: string, name: string, date: string)
    ensures var r := FileName(modelsDir, separator, name, date);
      forall k :: |modelsDir + separator| <= k < |r| ==> r[k] !in Invalid
  {
    var base := if JavaString.EndsWith(name, ".zip") then name[..|name| - 4] else name;
    var t := Sanitized(base + "_" + date + ".zip", Invalid);
    var p := modelsDir + separator;
    var r := FileName(modelsDir, separator, name, date);
    assert r == p + t;
    forall k | |p| <= k < |r|
      ensures r[k] !in Invalid
    {
      assert r[k] == t[k - |p|];
    }
  }

  /** When neither the name nor the date holds an invalid character, the file
      is named exactly by the stripped name, "_", the date and ".zip". */
  lemma FileNameClean(modelsDir: string, separator: string, name: string, date: string)
    requires forall k :: 0 <= k < |name| ==> name[k] !in Invalid
    requires forall k :: 0 <= k < |date| ==> date[k] !in Invalid
    ensures var base := if JavaString.EndsWith(name, ".zip") then name[..|name| - 4] else name;
      FileName(modelsDir, separator, name, date) == modelsDir + separator + base + "_" + date + ".zip"
  {
    var base := if JavaString.EndsWith(name, ".zip") then name[..|name| - 4] else name;
    var t := base + "_" + date + ".zip";
    forall k | 0 <= k < |t|
      ensures t[k] !in Invalid
    {
      if k < |base| {
        assert t[k] == name[k];
      } else if |base| + 1 <= k < |base| + 1 + |date| {
        assert t[k] == date[k - |base| - 1];
      }
    }
    SanitizedClean(t);
  }
}
