/**
 * The pure part of the `addBike` thunk: how the draft becomes a
 * multipart/form-data body, including the file name and MIME type of the
 * image part.
 */
module Multipart {
  import opened Basics
  import opened Text
  import opened Forms

  /** One `formData.append(...)` call: a text field, or the image descriptor `{uri, name, type}`. */
  datatype Part =
    | TextPart(field: string, value: string)
    | FilePart(field: string, uri: string, filename: string, mimeType: string)

  /** `uri.split("/").pop()`: the text after the last `/`, or all of it when there is none. */
  function LastSegment(uri: string): (r: string)
    ensures '/' !in r
    ensures |r| <= |uri| && r == uri[|uri| - |r|..]
    ensures |r| < |uri| ==> uri[|uri| - |r| - 1] == '/'
  {
    if uri == [] then []
    else if uri[|uri| - 1] == '/' then []
    else LastSegment(uri[..|uri| - 1]) + [uri[|uri| - 1]]
  }

  /** A name appended after a `/` is what the split gives back. */
  lemma {:induction false} LastSegmentOfPath(dir: string, name: string)
    requires '/' !in name
    ensures LastSegment(dir + "/" + name) == name
  {
    if name == [] {
      assert (dir + "/" + name)[|dir + "/" + name| - 1] == '/';
    } else {
      var init := name[..|name| - 1];
      assert dir + "/" + name == (dir + "/" + init) + [name[|name| - 1]];
      assert '/' !in init by {
        forall i | 0 <= i < |init| ensures init[i] != '/' {
          assert init[i] == name[i];
        }
      }
      LastSegmentOfPath(dir, init);
    }
  }

  predicate AllWord(s: string) {
    forall i :: 0 <= i < |s| ==> IsWordChar(s[i])
  }

  /** The regular expression `/\.(\w+)$/` matches with its `.` at position `i`. */
  ghost predicate MatchesExtensionAt(filename: string, i: int) {
    0 <= i < |filename| - 1 && filename[i] == '.' && AllWord(filename[i + 1..])
  }

  /** The longest suffix made of `\w` characters. */
  function WordSuffix(s: string): (r: string)
    ensures |r| <= |s| && r == s[|s| - |r|..]
    ensures AllWord(r)
    ensures |r| < |s| ==> !IsWordChar(s[|s| - |r| - 1])
  {
    if s == [] || !IsWordChar(s[|s| - 1]) then []
    else WordSuffix(s[..|s| - 1]) + [s[|s| - 1]]
  }

  /**
   * The capture group of `/\.(\w+)$/.exec(filename)`: present exactly when the
   * regular expression matches, and then the text after the matching `.`.
   */
  function Extension(filename: string): (r: Option<string>)
    ensures r.Some? <==> exists i :: MatchesExtensionAt(filename, i)
    ensures r.Some? ==> (MatchesExtensionAt(filename, |filename| - |r.value| - 1)
                         && r.value == filename[|filename| - |r.value|..])
  {
    var w := WordSuffix(filename);
    var n := |filename|;
    if 0 < |w| < n && filename[n - |w| - 1] == '.' then
      assert MatchesExtensionAt(filename, n - |w| - 1);
      Some(w)
    else
      assert forall i :: !MatchesExtensionAt(filename, i) by {
        forall i | MatchesExtensionAt(filename, i) ensures false {
        }
      }
      None
  }

  /** Since `.` is not a `\w` character, the regular expression can match at one position only. */
  lemma ExtensionMatchUnique(filename: string, i: int, j: int)
    requires MatchesExtensionAt(filename, i) && MatchesExtensionAt(filename, j)
    ensures i == j
  {
  }

  /** `match ? "image/" + match[1] : "image"`. */
  function MimeType(filename: string): (r: string)
    ensures Extension(filename).Some? ==> r == "image/" + Extension(filename).value
    ensures Extension(filename).None? ==> r == "image"
  {
    match Extension(filename)
    case Some(e) => "image/" + e
    case None => "image"
  }

  lemma ExtensionOfDottedName()
    ensures Extension("b.c.png") == Some("png")
  {
    var f := "b.c.png";
    assert f[..6] == "b.c.pn" && f[..6][..5] == "b.c.p" && f[..6][..5][..4] == "b.c.";
    assert WordSuffix("b.c.") == [];
    assert WordSuffix(f) == "png";
  }

  lemma ExtensionOfBareName()
    ensures Extension("photo") == None
  {
    assert forall i :: !MatchesExtensionAt("photo", i) by {
      forall i | MatchesExtensionAt("photo", i) ensures false {
      }
    }
  }

  /** Worked URIs: only the text after the last `.` of the last segment counts. */
  lemma MimeTypeOfDottedName()
    ensures MimeType(LastSegment("a/b.c.png")) == "image/png"
  {
    assert "a/b.c.png" == "a" + "/" + "b.c.png";
    LastSegmentOfPath("a", "b.c.png");
    assert LastSegment("a/b.c.png") == "b.c.png";
    ExtensionOfDottedName();
  }

  /** A last segment without a `.` gets the generic type. */
  lemma MimeTypeOfBareName()
    ensures MimeType(LastSegment("a/photo")) == "image"
  {
    assert "a/photo" == "a" + "/" + "photo";
    LastSegmentOfPath("a", "photo");
    assert LastSegment("a/photo") == "photo";
    ExtensionOfBareName();
  }

  /** A URI ending in `/` has an empty file name and the generic type. */
  lemma MimeTypeOfDirectory()
    ensures LastSegment("a/") == "" && MimeType(LastSegment("a/")) == "image"
  {
    LastSegmentOfPath("a", "");
  }

  /** The text parts, appended in the thunk's order. */
  function TextParts(d: Draft): (r: seq<Part>)
    ensures |r| == 5
    ensures forall i :: 0 <= i < |r| ==> r[i].TextPart? && r[i].field != "image"
  {
    [ TextPart("name", d.name),
      TextPart("price", d.price),
      TextPart("discountPercent", d.discountPercent),
      TextPart("description", d.description),
      TextPart("category", d.category) ]
  }

  /** The image descriptor for a local URI. */
  function ImagePart(uri: string): (r: Part)
    ensures r.FilePart? && r.field == "image" && r.uri == uri
    ensures '/' !in r.filename && |r.filename| <= |uri| && r.filename == uri[|uri| - |r.filename|..]
    ensures r.filename == LastSegment(uri) && r.mimeType == MimeType(r.filename)
  {
    var filename := LastSegment(uri);
    FilePart("image", uri, filename, MimeType(filename))
  }

  /**
   * The body the thunk posts. Reading `productData.image.uri` throws when the
   * image is `null`, after the text parts were appended; that aborts the thunk
   * before the request, which `None` stands for.
   */
  function BuildFormData(d: Draft): (r: Option<seq<Part>>)
    ensures r.Some? <==> d.image.Some?
  {
    match d.image
    case None => None
    case Some(asset) => Some(TextParts(d) + [ImagePart(asset.uri)])
  }

  /** The five text fields come first, in order `name, price, discountPercent, description, category`, with the draft's own texts, and the image part last. */
  lemma FormDataFieldOrder(d: Draft)
    ensures BuildFormData(d).Some? <==> d.image.Some?
    ensures d.image.Some? ==>
      var parts := BuildFormData(d).value;
      && |parts| == 6
      && [parts[0].field, parts[1].field, parts[2].field, parts[3].field, parts[4].field, parts[5].field]
         == ["name", "price", "discountPercent", "description", "category", "image"]
      && [parts[0].value, parts[1].value, parts[2].value, parts[3].value, parts[4].value]
         == [d.name, d.price, d.discountPercent, d.description, d.category]
      && parts[5] == ImagePart(d.image.value.uri)
  {
  }

  /**
   * The image part carries the URI unchanged and, as its name, the last
   * `/`-separated segment of the URI; its type is `image/` followed by that
   * name's extension when the name has one, and the generic `image` otherwise.
   */
  lemma ImagePartShape(uri: string)
    ensures ImagePart(uri).uri == uri
    ensures '/' !in ImagePart(uri).filename
    ensures uri == uri[..|uri| - |ImagePart(uri).filename|] + ImagePart(uri).filename
    ensures |ImagePart(uri).filename| < |uri| ==> uri[|uri| - |ImagePart(uri).filename| - 1] == '/'
    ensures Extension(ImagePart(uri).filename).Some? ==>
      ImagePart(uri).mimeType == "image/" + Extension(ImagePart(uri).filename).value
    ensures Extension(ImagePart(uri).filename).None? ==> ImagePart(uri).mimeType == "image"
  {
    var f := LastSegment(uri);
    assert uri == uri[..|uri| - |f|] + uri[|uri| - |f|..];
  }
}
