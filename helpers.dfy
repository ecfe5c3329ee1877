/** helpers.go: the media-type id table and the media-type lookup. */
module Helpers {
  import GoStrconv

  /** The known media-type names, in id order: the i-th has id i + 1. */
  const MediaTypeNames: seq<string> :=
    ["movie", "show", "season", "episode", "trailer", "comic", "person", "artist",
     "album", "track", "photoAlbum", "picture", "photo", "clip", "playlistItem"]

  /** GetMediaTypeID: the id of a known name, any other string unchanged. */
  function GetMediaTypeID(mediaType: string): (r: string)
    ensures mediaType !in MediaTypeNames ==> r == mediaType
  {
    match mediaType
    case "movie" => "1"
    case "show" => "2"
    case "season" => "3"
    case "episode" => "4"
    case "trailer" => "5"
    case "comic" => "6"
    case "person" => "7"
    case "artist" => "8"
    case "album" => "9"
    case "track" => "10"
    case "photoAlbum" => "11"
    case "picture" => "12"
    case "photo" => "13"
    case "clip" => "14"
    case "playlistItem" => "15"
    case _ => mediaType
  }

  /** The i-th known name gets the decimal text of i + 1. */
  lemma MediaTypeIDTable()
    ensures forall i :: 0 <= i < |MediaTypeNames| ==> GetMediaTypeID(MediaTypeNames[i]) == GoStrconv.Itoa(i + 1)
  {
    forall i | 0 <= i < |MediaTypeNames|
      ensures GetMediaTypeID(MediaTypeNames[i]) == GoStrconv.Itoa(i + 1)
    {
      MediaTypeIDAt(i);
    }
  }

  lemma MediaTypeIDAt(i: int)
    requires 0 <= i < |MediaTypeNames|
    ensures GetMediaTypeID(MediaTypeNames[i]) == GoStrconv.Itoa(i + 1)
  {
    if i < 8 {
      LowIDs(i);
    } else {
      HighIDs(i);
    }
    SmallItoa(i + 1);
  }

  lemma LowIDs(i: int)
    requires 0 <= i < 8
    ensures GetMediaTypeID(MediaTypeNames[i]) == MediaTypeIDs[i]
  {
  }

  lemma HighIDs(i: int)
    requires 8 <= i < |MediaTypeNames|
    ensures GetMediaTypeID(MediaTypeNames[i]) == MediaTypeIDs[i]
  {
  }

  /** The ids as written in the switch. */
  const MediaTypeIDs: seq<string> :=
    ["1", "2", "3", "4", "5", "6", "7", "8", "9", "10", "11", "12", "13", "14", "15"]

  lemma SmallItoa(n: int)
    requires 1 <= n <= 15
    ensures GoStrconv.Itoa(n) == MediaTypeIDs[n - 1]
  {
    if n >= 10 {
      assert GoStrconv.Itoa(n) == GoStrconv.Digits(1) + [GoStrconv.DigitChar(n - 10)];
    }
  }

  /** Every id is all digits, and no known name is. */
  lemma IDIsNotAName(i: int)
    requires 0 <= i < |MediaTypeNames|
    ensures GetMediaTypeID(MediaTypeNames[i]) !in MediaTypeNames
  {
    if i < 8 {
      LowIDs(i);
    } else {
      HighIDs(i);
    }
    NamesStartWithLetters();
    IDsStartWithDigits();
    var id := MediaTypeIDs[i];
    forall j | 0 <= j < |MediaTypeNames| ensures MediaTypeNames[j] != id {
      assert MediaTypeNames[j][0] != id[0];
    }
  }

  lemma NamesStartWithLetters()
    ensures forall j :: 0 <= j < |MediaTypeNames| ==> |MediaTypeNames[j]| > 0 && 'a' <= MediaTypeNames[j][0] <= 'z'
  {
  }

  lemma IDsStartWithDigits()
    ensures forall i :: 0 <= i < |MediaTypeIDs| ==> |MediaTypeIDs[i]| > 0 && GoStrconv.IsDigit(MediaTypeIDs[i][0])
  {
  }

  /** Distinct known names get distinct ids, and the id differs from the
      name exactly for known names. */
  lemma MediaTypeIDsDistinct(a: string, b: string)
    ensures a in MediaTypeNames && b in MediaTypeNames && a != b ==> GetMediaTypeID(a) != GetMediaTypeID(b)
    ensures GetMediaTypeID(a) != a <==> a in MediaTypeNames
  {
    if a in MediaTypeNames {
      var i :| 0 <= i < |MediaTypeNames| && MediaTypeNames[i] == a;
      IDIsNotAName(i);
      if b in MediaTypeNames && a != b {
        var j :| 0 <= j < |MediaTypeNames| && MediaTypeNames[j] == b;
        DistinctIndexIDs(i, j);
      }
    }
  }

  /** Two table positions get different ids: Atoi reads back i + 1 and j + 1. */
  lemma DistinctIndexIDs(i: int, j: int)
    requires 0 <= i < |MediaTypeNames| && 0 <= j < |MediaTypeNames| && i != j
    ensures GetMediaTypeID(MediaTypeNames[i]) != GetMediaTypeID(MediaTypeNames[j])
  {
    MediaTypeIDAt(i);
    MediaTypeIDAt(j);
    GoStrconv.AtoiItoa(i + 1);
    GoStrconv.AtoiItoa(j + 1);
  }

  /** No id is itself a known name, so applying the table twice is the
      same as applying it once. */
  lemma MediaTypeIDIdempotent(s: string)
    ensures GetMediaTypeID(GetMediaTypeID(s)) == GetMediaTypeID(s)
  {
    if s in MediaTypeNames {
      var i :| 0 <= i < |MediaTypeNames| && MediaTypeNames[i] == s;
      IDIsNotAName(i);
    }
  }

  /** The two type fields GetMediaType consults. */
  datatype MediaMetadata = MediaMetadata(directoryType: string, videoType: string)

  /** GetMediaType: the directory's type if set, else the video's, else "". */
  function GetMediaType(info: MediaMetadata): (r: string)
    ensures info.directoryType != "" ==> r == info.directoryType
    ensures info.directoryType == "" ==> r == info.videoType
    ensures r == "" <==> info.directoryType == "" && info.videoType == ""
  {
    if info.directoryType != "" then info.directoryType
    else if info.videoType != "" then info.videoType
    else ""
  }
}
