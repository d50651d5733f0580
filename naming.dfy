/**
 * How the upload and create scripts derive names: the category from the
 * file name, the default display name from the category, and the data file
 * path registered in the configuration.
 */
module CategoryNaming {
  import opened PyStr

  const JsonSuffix := ".json"
  const DataDirectory := "of_the_day/"

  /** `s.endswith(suffix)`. */
  predicate EndsWith(s: string, suffix: string) {
    |suffix| <= |s| && s[|s| - |suffix|..] == suffix
  }

  /** `filename.replace('.json', '')`: every occurrence is removed, not only the suffix. */
  function CategoryName(filename: string): (name: string)
    ensures !Occurs(JsonSuffix, filename) ==> name == filename
  {
    ReplaceAbsent(filename, JsonSuffix, "");
    Replace(filename, JsonSuffix, "")
  }

  /** `name.replace('_', ' ').title()`. */
  function DefaultDisplayName(name: string): (display: string)
    ensures |display| == |name|
  {
    assert "_" == ['_'] && " " == [' '];
    ReplaceChar(name, '_', ' ');
    Title(Replace(name, "_", " "))
  }

  /** `f'of_the_day/{filename}'`: the data file path relative to the plugin directory. */
  function DataFilePath(filename: string): (path: string)
    ensures |path| == |DataDirectory| + |filename| && path[..|DataDirectory|] == DataDirectory
    ensures EndsWith(path, filename)
  {
    DataDirectory + filename
  }

  /** `.json` does not overlap itself, so an occurrence never starts inside a text free of it. */
  lemma {:induction false} CategoryNameDropsEach(n: string, rest: string)
    requires !Occurs(JsonSuffix, n)
    ensures CategoryName(n + JsonSuffix + rest) == n + CategoryName(rest)
    decreases |n|
  {
    var s := n + JsonSuffix + rest;
    if n == [] {
      assert s == JsonSuffix + rest;
      assert s[|JsonSuffix|..] == rest;
    } else {
      assert !(JsonSuffix <= s) by {
        if |n| >= |JsonSuffix| {
          assert s[..|JsonSuffix|] == n[..|JsonSuffix|];
          assert !(JsonSuffix <= n);
        } else {
          assert s[|n|] == '.';
          assert JsonSuffix[|n|] != '.';
        }
      }
      assert s[1..] == n[1..] + JsonSuffix + rest;
      assert !Occurs(JsonSuffix, n[1..]);
      CategoryNameDropsEach(n[1..], rest);
      assert n == [n[0]] + n[1..];
    }
  }

  /** The category of `name + '.json'` is `name`, for a name that does not itself contain `.json`. */
  lemma CategoryNameOfFile(name: string)
    requires !Occurs(JsonSuffix, name)
    ensures CategoryName(name + JsonSuffix) == name
  {
    CategoryNameDropsEach(name, []);
    assert name + JsonSuffix + [] == name + JsonSuffix;
  }

  /** A pattern whose first character is absent does not occur. */
  lemma {:induction false} AbsentFirstNoOccurrence(pat: string, s: string)
    requires pat != [] && pat[0] !in s
    ensures !Occurs(pat, s)
    decreases |s|
  {
    if s != [] {
      assert s[0] != pat[0];
      AbsentFirstNoOccurrence(pat, s[1..]);
    }
  }

  /**
   * The default display name keeps the length, turns each underscore into
   * a space, upper-cases a leading letter and a letter after an underscore.
   */
  lemma DefaultDisplayNameShape(name: string)
    ensures |DefaultDisplayName(name)| == |name|
    ensures forall i :: 0 <= i < |name| && name[i] == '_' ==> DefaultDisplayName(name)[i] == ' '
    ensures |name| > 0 && IsLower(name[0]) ==> DefaultDisplayName(name)[0] == ToUpper(name[0])
    ensures forall i :: 0 < i < |name| && name[i - 1] == '_' && IsLower(name[i]) ==>
      DefaultDisplayName(name)[i] == ToUpper(name[i])
  {
    assert "_" == ['_'] && " " == [' '];
    ReplaceChar(name, '_', ' ');
    var t := Replace(name, "_", " ");
    var d := TitleFrom(t, false);
    assert DefaultDisplayName(name) == d;
    forall i | 0 <= i < |name| && name[i] == '_' ensures d[i] == ' ' {
      assert t[i] == ' ' && !IsCased(t[i]);
      assert d[i] == TitleChar(t[i], if i == 0 then false else IsCased(t[i - 1]));
    }
    forall i | 0 < i < |name| && name[i - 1] == '_' && IsLower(name[i]) ensures d[i] == ToUpper(name[i]) {
      assert t[i - 1] == ' ' && t[i] == name[i];
    }
  }
}
