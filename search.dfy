/** The rating-key and thumbnail URL slicing of search.go. Both extractors
    skip a fixed 18-character prefix ("/library/metadata/") and then scan
    for the first '/'. Strings are byte strings; every character here is
    one byte. */
module Search {

  const MetadataPrefix: string := "/library/metadata/"

  /** The index of the first '/' in s, or -1. */
  function FirstSlash(s: string): (r: int)
    ensures -1 <= r < |s|
    ensures r >= 0 ==> s[r] == '/' && forall j :: 0 <= j < r ==> s[j] != '/'
    ensures r == -1 <==> forall j :: 0 <= j < |s| ==> s[j] != '/'
  {
    if s == [] then -1
    else if s[0] == '/' then 0
    else
      var k := FirstSlash(s[1..]);
      if k == -1 then -1 else k + 1
  }

  /** What ExtractKeyFromRatingKey returns. */
  function KeyFromRatingKey(key: string): string
  {
    if |key| <= 18 then key
    else
      var rest := key[18..];
      if |rest| <= 9 then rest
      else
        var k := FirstSlash(rest);
        if k == -1 then rest else rest[..k]
  }

  /** ExtractKeyFromRatingKey: an index scan with break. */
  method ExtractKeyFromRatingKey(key: string) returns (r: string)
    ensures r == KeyFromRatingKey(key)
  {
    r := key;
    var keyCount := |r|;
    if keyCount > 18 {
      r := r[18..];
      keyCount := |r|;
      if keyCount > 9 {
        ghost var rest := r;
        for ii := 0 to keyCount
          invariant r == rest
          invariant forall j :: 0 <= j < ii ==> rest[j] != '/'
        {
          assert r[ii..ii + 1] == [r[ii]];
          if r[ii..ii + 1] == "/" {
            r := r[..ii];
            break;
          }
        }
      }
      return r;
    }
    return r;
  }

  /** Go panics slicing past the end when the first '/' of the remainder
      sits fewer than 7 characters before its end; callers must avoid it. */
  predicate ThumbSafe(url: string) {
    (|url| > 18 && |url| - 18 > 7 && FirstSlash(url[18..]) >= 0)
      ==> FirstSlash(url[18..]) + 7 <= |url| - 18
  }

  /** What ExtractKeyAndThumbFromURL returns. */
  function KeyAndThumb(url: string): (string, string)
    requires ThumbSafe(url)
  {
    if |url| <= 18 then ("", "")
    else
      var k := url[18..];
      if |k| <= 7 then ("", "")
      else
        var slash := FirstSlash(k);
        if slash == -1 then ("", "") else (k[..slash], k[slash + 7..])
  }

  /** ExtractKeyAndThumbFromURL: an index scan with break. */
  method ExtractKeyAndThumbFromURL(url: string) returns (key: string, thumbID: string)
    requires ThumbSafe(url)
    ensures (key, thumbID) == KeyAndThumb(url)
  {
    var count := |url|;
    key, thumbID := "", "";
    if count > 18 {
      var k := url[18..];
      var keyCount := |k|;
      if keyCount > 7 {
        for ii := 0 to keyCount
          invariant key == "" && thumbID == ""
          invariant forall j :: 0 <= j < ii ==> k[j] != '/'
        {
          assert k[ii..ii + 1] == [k[ii]];
          if k[ii..ii + 1] == "/" {
            key := k[..ii];
            thumbID := k[ii + 7..];
            break;
          }
        }
      }
    }
  }

  // ---------------------------------------------------------------------
  // Properties

  /** The extracted key is always a piece of the input: all of it, or the
      piece that starts right after the 18-character prefix. */
  lemma KeyIsSubstring(key: string)
    ensures |key| <= 18 ==> KeyFromRatingKey(key) == key
    ensures |key| > 18 ==>
      var r := KeyFromRatingKey(key);
      |r| <= |key| - 18 && r == key[18..18 + |r|]
  {
  }

  /** The first '/' of a + b, when a has none and b starts with one. */
  lemma FirstSlashAt(a: string, b: string)
    requires forall j :: 0 <= j < |a| ==> a[j] != '/'
    requires b != [] && b[0] == '/'
    ensures FirstSlash(a + b) == |a|
  {
    var s := a + b;
    assert s[|a|] == '/';
    assert forall j :: 0 <= j < |a| ==> s[j] == a[j];
  }

  /** The long case: the remainder up to its first '/', or all of it. */
  lemma KeyFromRatingKeyCases(key: string)
    ensures |key| <= 18 ==> KeyFromRatingKey(key) == key
    ensures |key| > 18 && |key| - 18 <= 9 ==> KeyFromRatingKey(key) == key[18..]
    ensures |key| > 18 + 9 ==>
      var r := KeyFromRatingKey(key);
      var rest := key[18..];
      && |r| <= |rest| && r == rest[..|r|]
      && (forall j :: 0 <= j < |r| ==> r[j] != '/')
      && (|r| == |rest| || rest[|r|] == '/')
  {
  }

  /** A metadata URL with no further '/' reads back its id. */
  lemma {:induction false} RatingKeyRoundTrip(id: string)
    requires id != "" && forall j :: 0 <= j < |id| ==> id[j] != '/'
    ensures KeyFromRatingKey(MetadataPrefix + id) == id
  {
    var key := MetadataPrefix + id;
    assert key[18..] == id;
  }

  /** A show's children URL reads back the show's id. */
  lemma {:induction false} ChildrenRoundTrip(id: string)
    requires id != "" && forall j :: 0 <= j < |id| ==> id[j] != '/'
    ensures KeyFromRatingKey(MetadataPrefix + id + "/children") == id
  {
    var key := MetadataPrefix + id + "/children";
    var rest := id + "/children";
    assert |MetadataPrefix| == 18;
    assert key[18..] == rest;
    FirstSlashAt(id, "/children");
    assert rest[..|id|] == id;
  }

  /** A thumbnail URL is safe to slice and reads back its id and thumb. */
  lemma {:induction false} ThumbRoundTrip(id: string, thumb: string)
    requires forall j :: 0 <= j < |id| ==> id[j] != '/'
    ensures ThumbSafe(MetadataPrefix + id + "/thumb/" + thumb)
    ensures KeyAndThumb(MetadataPrefix + id + "/thumb/" + thumb) == (id, thumb)
  {
    var url := MetadataPrefix + id + "/thumb/" + thumb;
    var rest := id + ("/thumb/" + thumb);
    assert url[18..] == rest;
    FirstSlashAt(id, "/thumb/" + thumb);
    assert rest[..|id|] == id;
    assert rest[|id| + 7..] == thumb;
  }

  /** The cases that give ("", ""). */
  lemma ThumbEmptyCases(url: string)
    requires ThumbSafe(url)
    ensures |url| <= 18 ==> KeyAndThumb(url) == ("", "")
    ensures |url| > 18 && |url| - 18 <= 7 ==> KeyAndThumb(url) == ("", "")
    ensures |url| > 18 && (forall j :: 18 <= j < |url| ==> url[j] != '/') ==> KeyAndThumb(url) == ("", "")
  {
    if |url| > 18 && (forall j :: 18 <= j < |url| ==> url[j] != '/') {
      var k := url[18..];
      assert forall j :: 0 <= j < |k| ==> k[j] == url[18 + j];
    }
  }

  /** The test vectors of search_test.go. */
  lemma ShowVector()
    ensures KeyFromRatingKey("/library/metadata/18/children") == "18"
  {
    ChildrenRoundTrip("18");
    assert MetadataPrefix + "18" + "/children" == "/library/metadata/18/children";
  }

  lemma ShortShowVector()
    ensures KeyFromRatingKey("/library/metadata/1/children") == "1"
  {
    ChildrenRoundTrip("1");
    assert MetadataPrefix + "1" + "/children" == "/library/metadata/1/children";
  }

  lemma MovieVectors()
    ensures KeyFromRatingKey("/library/metadata/797") == "797"
    ensures KeyFromRatingKey("/library/metadata/7") == "7"
  {
    RatingKeyRoundTrip("797");
    RatingKeyRoundTrip("7");
  }
}
