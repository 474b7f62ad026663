/**
  The instructor image URL builder: a file name becomes an address under the
  CDN's instructor image directory, whatever leading slashes it carries, and
  an empty file name becomes the local placeholder image.
*/
module InstructorImage {

  const CdnBaseUrl: string := "https://cdn.timerightproduction.org"

  const Placeholder: string := "/placeholder-instructor.webp"

  /** The image directory below the host, without a leading slash. */
  const ImageDir: string := "images/instructor/"

  /** Where every image of a non-empty file name starts. */
  const DirUrl: string := CdnBaseUrl + "/" + ImageDir

  predicate AllSlashes(s: string)
  {
    forall i :: 0 <= i < |s| ==> s[i] == '/'
  }

  /** `s` with its run of leading slashes removed (the pattern `^/+`
      replaced by nothing). */
  function StripLeadingSlashes(s: string): (r: string)
    ensures |r| <= |s|
    ensures r == [] || r[0] != '/'
    decreases |s|
  {
    if |s| > 0 && s[0] == '/' then StripLeadingSlashes(s[1..]) else s
  }

  /** The URL of the image stored under `filename`. */
  function InstructorImageUrl(filename: string): (url: string)
    ensures filename == [] ==> url == Placeholder
    ensures filename != [] ==> url == DirUrl + StripLeadingSlashes(filename)
  {
    if filename == [] then Placeholder
    else
      var normalizedFilename := StripLeadingSlashes(filename);
      var path := "/" + ImageDir + normalizedFilename;
      var normalizedPath := StripLeadingSlashes(path);
      DirectoryPathLosesOneSlash(normalizedFilename);
      DirUrlThen(normalizedFilename);
      CdnBaseUrl + "/" + normalizedPath
  }

  /** What is removed is a run of slashes and what is kept is the rest of
      `s`, unchanged. */
  lemma {:induction false} StripRemovesOnlySlashes(s: string)
    ensures var r := StripLeadingSlashes(s);
      s[|s| - |r|..] == r && AllSlashes(s[..|s| - |r|])
    decreases |s|
  {
    if |s| > 0 && s[0] == '/' {
      StripRemovesOnlySlashes(s[1..]);
      var r := StripLeadingSlashes(s);
      var k := |s| - |r|;
      assert s[1..][k - 1..] == s[k..];
      forall i | 0 <= i < k ensures s[..k][i] == '/' {
        if i > 0 {
          assert s[..k][i] == s[1..][..k - 1][i - 1];
        }
      }
    }
  }

  /** Stripping twice strips nothing more. */
  lemma StripIsIdempotent(s: string)
    ensures StripLeadingSlashes(StripLeadingSlashes(s)) == StripLeadingSlashes(s)
  {
  }

  /** Leading slashes in front of `s` make no difference. */
  lemma {:induction false} StripIgnoresLeadingSlashes(slashes: string, s: string)
    requires AllSlashes(slashes)
    ensures StripLeadingSlashes(slashes + s) == StripLeadingSlashes(s)
    decreases |slashes|
  {
    if slashes != [] {
      assert (slashes + s)[0] == '/';
      assert (slashes + s)[1..] == slashes[1..] + s;
      assert AllSlashes(slashes[1..]) by {
        forall i | 0 <= i < |slashes| - 1 ensures slashes[1..][i] == '/' {
          assert slashes[1..][i] == slashes[i + 1];
        }
      }
      StripIgnoresLeadingSlashes(slashes[1..], s);
      assert StripLeadingSlashes(slashes + s) == StripLeadingSlashes(slashes[1..] + s);
    } else {
      assert slashes + s == s;
    }
  }

  /** An empty file name gives the placeholder image. */
  lemma EmptyGivesPlaceholder()
    ensures InstructorImageUrl("") == "/placeholder-instructor.webp"
  {
  }

  /** A non-empty file name gives the CDN instructor directory followed by
      the file name without its leading slashes: the second normalisation
      removes only the one slash in front of the directory, so exactly one
      slash separates the host from `images`. */
  lemma NonEmptyGivesCdnUrl(filename: string)
    requires filename != []
    ensures InstructorImageUrl(filename) == DirUrl + StripLeadingSlashes(filename)
  {
    var name := StripLeadingSlashes(filename);
    DirectoryPathLosesOneSlash(name);
    DirUrlThen(name);
  }

  lemma DirUrlThen(name: string)
    ensures CdnBaseUrl + "/" + (ImageDir + name) == DirUrl + name
  {
  }

  /** The second normalisation only removes the slash in front of the directory. */
  lemma DirectoryPathLosesOneSlash(name: string)
    ensures StripLeadingSlashes("/" + ImageDir + name) == ImageDir + name
  {
    var rest := ImageDir + name;
    assert rest[0] == 'i';
    StripOneSlash(rest);
    assert "/" + ImageDir + name == "/" + rest;
  }

  /** A string with exactly one leading slash loses exactly that slash. */
  lemma StripOneSlash(rest: string)
    requires rest == [] || rest[0] != '/'
    ensures StripLeadingSlashes("/" + rest) == rest
  {
    assert ("/" + rest)[1..] == rest;
  }

  /** The address written out: one slash between host and directory. */
  lemma DirUrlIsTheInstructorDirectory()
    ensures DirUrl == "https://cdn.timerightproduction.org/images/instructor/"
  {
  }

  /** `f`, `/f` and `///f` all give the same URL. */
  lemma {:induction false} LeadingSlashesAreIrrelevant(f: string, slashes: string)
    requires f != [] && AllSlashes(slashes)
    ensures InstructorImageUrl(slashes + f) == InstructorImageUrl(f)
  {
    NonEmptyGivesCdnUrl(f);
    NonEmptyGivesCdnUrl(slashes + f);
    StripIgnoresLeadingSlashes(slashes, f);
  }

  /** A file name made only of slashes is not empty, so it gives the bare
      directory URL rather than the placeholder. */
  lemma {:induction false} SlashesOnlyGiveDirectory(filename: string)
    requires filename != [] && AllSlashes(filename)
    ensures InstructorImageUrl(filename) == DirUrl
  {
    NonEmptyGivesCdnUrl(filename);
    assert filename + [] == filename;
    StripIgnoresLeadingSlashes(filename, []);
  }
}
