/** The scanner's data types and its file-name filter. Directory iteration and the scanning
    thread are not part of this model. */
module Scanner {
  import opened Utils

  /** One playable file found by the scan. `size` is the file size in bytes, `modified` the
      last-write time as a tick count. */
  datatype TrackEntry = TrackEntry(displayName: string, path: string, size: nat, modified: int)

  datatype SortMode = Name | Date | Size

  predicate EndsWith(s: string, suffix: string)
  {
    |suffix| <= |s| && s[|s| - |suffix|..] == suffix
  }

  lemma EndsWith2(s: string, a: char, b: char)
    ensures EndsWith(s, [a, b]) <==> |s| >= 2 && s[|s| - 2] == a && s[|s| - 1] == b
  {
    if |s| >= 2 && s[|s| - 2] == a && s[|s| - 1] == b {
      assert s[|s| - 2..] == [a, b];
    }
  }

  lemma EndsWith3(s: string, a: char, b: char, c: char)
    ensures EndsWith(s, [a, b, c]) <==> |s| >= 3 && s[|s| - 3] == a && s[|s| - 2] == b && s[|s| - 1] == c
  {
    if |s| >= 3 && s[|s| - 3] == a && s[|s| - 2] == b && s[|s| - 1] == c {
      assert s[|s| - 3..] == [a, b, c];
    }
  }

  lemma EndsWith4(s: string, a: char, b: char, c: char, d: char)
    ensures EndsWith(s, [a, b, c, d])
        <==> |s| >= 4 && s[|s| - 4] == a && s[|s| - 3] == b && s[|s| - 2] == c && s[|s| - 1] == d
  {
    if |s| >= 4 && s[|s| - 4] == a && s[|s| - 3] == b && s[|s| - 2] == c && s[|s| - 1] == d {
      assert s[|s| - 4..] == [a, b, c, d];
    }
  }

  /** `IsPmdFile`: after lower-casing, `.mdt` files (PCM sample banks) are rejected and the
      PMD extensions `.m`, `.m2`, `.m86` and `.m26` are accepted; nothing else is. */
  function IsPmdFile(name: string): (r: bool)
    ensures r <==> (EndsWith(ToLower(name), ".m") || EndsWith(ToLower(name), ".m2")
                    || EndsWith(ToLower(name), ".m86") || EndsWith(ToLower(name), ".m26"))
    ensures EndsWith(ToLower(name), ".mdt") ==> !r
  {
    var lower := ToLower(name);
    var len := |lower|;
    EndsWith2(lower, '.', 'm');
    EndsWith3(lower, '.', 'm', '2');
    EndsWith4(lower, '.', 'm', '8', '6');
    EndsWith4(lower, '.', 'm', '2', '6');
    EndsWith4(lower, '.', 'm', 'd', 't');
    if len >= 4 && lower[len - 4..] == ".mdt" then false
    else if len >= 2 && lower[len - 2] == '.' && lower[len - 1] == 'm' then true
    else if len >= 3 && lower[len - 3] == '.' && lower[len - 2] == 'm' && lower[len - 1] == '2' then true
    else if len >= 4 && lower[len - 4..] == ".m86" then true
    else if len >= 4 && lower[len - 4..] == ".m26" then true
    else false
  }

  /** The filter does not depend on letter case. */
  lemma IsPmdFileIgnoresCase(name: string)
    ensures IsPmdFile(ToLower(name)) == IsPmdFile(name)
  {
    ToLowerIdempotent(name);
  }

  /** A name ending in `.m`, in either case, is accepted. */
  lemma DotMAccepted(name: string)
    requires |name| >= 2 && LowerChar(name[|name| - 2]) == '.' && LowerChar(name[|name| - 1]) == 'm'
    ensures IsPmdFile(name)
  {
    var lower := ToLower(name);
    var len := |lower|;
    assert lower[len - 2] == '.' && lower[len - 1] == 'm';
    if len >= 4 {
      assert lower[len - 4..][3] == 'm';
    }
  }

  /** A name ending in `.m2`, in either case, is accepted. */
  lemma DotM2Accepted(name: string)
    requires |name| >= 3 && LowerChar(name[|name| - 3]) == '.' && LowerChar(name[|name| - 2]) == 'm'
    requires LowerChar(name[|name| - 1]) == '2'
    ensures IsPmdFile(name)
  {
    var lower := ToLower(name);
    var len := |lower|;
    assert lower[len - 3] == '.' && lower[len - 2] == 'm' && lower[len - 1] == '2';
    if len >= 4 {
      assert lower[len - 4..][3] == '2';
    }
  }

  /** A name ending in `.m86` or `.m26`, in either case, is accepted. */
  lemma DotM86OrM26Accepted(name: string)
    requires |name| >= 4 && LowerChar(name[|name| - 4]) == '.' && LowerChar(name[|name| - 3]) == 'm'
    requires LowerChar(name[|name| - 2]) in {'8', '2'} && LowerChar(name[|name| - 1]) == '6'
    ensures IsPmdFile(name)
  {
    var lower := ToLower(name);
    var len := |lower|;
    assert lower[len - 4] == '.' && lower[len - 3] == 'm' && lower[len - 1] == '6';
    assert lower[len - 4..][3] == '6';
    EndsWith4(lower, '.', 'm', '8', '6');
    EndsWith4(lower, '.', 'm', '2', '6');
  }

  /** Appending a PMD extension, in any case, makes a name acceptable. */
  lemma PmdExtensionAccepted(stem: string, ext: string)
    requires ToLower(ext) == ".m" || ToLower(ext) == ".m2" || ToLower(ext) == ".m86" || ToLower(ext) == ".m26"
    ensures IsPmdFile(stem + ext)
  {
    var lowExt := ToLower(ext);
    if lowExt == ".m" {
      StemDotMAccepted(stem, ext);
    } else if lowExt == ".m2" {
      StemDotM2Accepted(stem, ext);
    } else {
      StemDotM86OrM26Accepted(stem, ext);
    }
  }

  /** After `stem`, the name's characters are those of `ext`. */
  lemma ExtensionChars(stem: string, ext: string)
    ensures forall k :: 0 <= k < |ext| ==> LowerChar((stem + ext)[|stem| + k]) == ToLower(ext)[k]
  {
    forall k | 0 <= k < |ext|
      ensures LowerChar((stem + ext)[|stem| + k]) == ToLower(ext)[k]
    {
      assert (stem + ext)[|stem| + k] == ext[k];
    }
  }

  lemma StemDotMAccepted(stem: string, ext: string)
    requires ToLower(ext) == ".m"
    ensures IsPmdFile(stem + ext)
  {
    var s, m := stem + ext, |stem|;
    ExtensionChars(stem, ext);
    assert LowerChar(s[m]) == '.' && LowerChar(s[m + 1]) == 'm';
    DotMAccepted(s);
  }

  lemma StemDotM2Accepted(stem: string, ext: string)
    requires ToLower(ext) == ".m2"
    ensures IsPmdFile(stem + ext)
  {
    var s, m := stem + ext, |stem|;
    ExtensionChars(stem, ext);
    assert LowerChar(s[m]) == '.' && LowerChar(s[m + 1]) == 'm' && LowerChar(s[m + 2]) == '2';
    DotM2Accepted(s);
  }

  lemma StemDotM86OrM26Accepted(stem: string, ext: string)
    requires ToLower(ext) == ".m86" || ToLower(ext) == ".m26"
    ensures IsPmdFile(stem + ext)
  {
    var s, m := stem + ext, |stem|;
    ExtensionChars(stem, ext);
    assert LowerChar(s[m]) == '.' && LowerChar(s[m + 1]) == 'm' && LowerChar(s[m + 3]) == '6';
    assert LowerChar(s[m + 2]) == ToLower(ext)[2];
    DotM86OrM26Accepted(s);
  }

  /** Every PMD extension ends in 'm', '2' or '6': a name whose last character is none of
      these, in either case, is rejected. */
  lemma LastCharacterRejects(name: string)
    requires name != [] && LowerChar(name[|name| - 1]) !in {'m', '2', '6'}
    ensures !IsPmdFile(name)
  {
    var lower := ToLower(name);
    assert lower[|lower| - 1] == LowerChar(name[|name| - 1]);
  }

  lemma AcceptsUpperDotM()
    ensures IsPmdFile("song.M")
  {
    DotMAccepted("song.M");
  }

  lemma AcceptsDotM2()
    ensures IsPmdFile("song.m2")
  {
    DotM2Accepted("song.m2");
  }

  lemma AcceptsUpperDotM2()
    ensures IsPmdFile("TRACK.M2")
  {
    DotM2Accepted("TRACK.M2");
  }

  lemma RejectedExamples()
    ensures !IsPmdFile("song.txt") && !IsPmdFile("readme.md") && !IsPmdFile("voice.MDT")
  {
    LastCharacterRejects("song.txt");
    LastCharacterRejects("readme.md");
    LastCharacterRejects("voice.MDT");
  }
}
