/**
 * The pets contract: the content authority and table path that address the
 * provider, the MIME types it reports, the gender codes, and the row a pet
 * occupies in the pets table.
 */
module PetContract {
  import opened Wrappers

  /** The provider's content authority. */
  const CONTENT_AUTHORITY: string := "com.example.android.pets"
  /** The path of the pets table below the authority. */
  // the assert discharges !IsNumeral("pets"), which the WordText subset check needs
  const PATH_PETS: WordText := assert "pets"[0] == 'p'; "pets"

  /** The platform's base MIME types for a cursor over many rows and over one row. */
  const CURSOR_DIR_BASE_TYPE: string := "vnd.android.cursor.dir"
  const CURSOR_ITEM_BASE_TYPE: string := "vnd.android.cursor.item"

  /** MIME type of the collection of pets. */
  const CONTENT_LIST_TYPE: string := CURSOR_DIR_BASE_TYPE + "/" + CONTENT_AUTHORITY + "/" + PATH_PETS
  /** MIME type of a single pet. */
  const CONTENT_TYPE: string := CURSOR_ITEM_BASE_TYPE + "/" + CONTENT_AUTHORITY + "/" + PATH_PETS

  /** The gender codes. */
  const GENDER_FEMALE: int := 2
  const GENDER_MALE: int := 1
  const GENDER_UNKNOWN: int := 0

  /** The weight column's default. */
  const WEIGHT_DEFAULT: int := 0

  /** A non-empty string made only of the decimal digits. */
  predicate IsNumeral(s: string) {
    |s| > 0 && forall i :: 0 <= i < |s| ==> '0' <= s[i] <= '9'
  }

  /** The text of a path segment that does not spell a number. */
  type WordText = s: string | !IsNumeral(s)

  /**
   * One path segment of a content URI. A segment made only of decimal digits
   * is carried as the number it spells; every other segment as its text, so
   * each path has exactly one representation.
   */
  datatype Segment = Word(text: WordText) | Number(value: nat)

  /** A content URI as far as routing sees it: its authority and its path segments. */
  datatype Uri = Uri(authority: string, path: seq<Segment>)

  /** The content URI of the pets table. */
  const CONTENT_URI: Uri := Uri(CONTENT_AUTHORITY, [Word(PATH_PETS)])

  /** The item form: the pets table's URI followed by one numeric segment. */
  predicate IsItemUri(uri: Uri) {
    && uri.authority == CONTENT_AUTHORITY
    && |uri.path| == 2
    && uri.path[0] == Word(PATH_PETS)
    && uri.path[1].Number?
  }

  /** ContentUris.parseId: the number in the last path segment, if it is one. */
  function ParseId(uri: Uri): Option<nat> {
    if |uri.path| > 0 && uri.path[|uri.path| - 1].Number? then Some(uri.path[|uri.path| - 1].value) else None
  }

  /** ContentUris.withAppendedId: the URI extended by one segment holding `id`. */
  function WithAppendedId(uri: Uri, id: nat): (r: Uri)
    ensures ParseId(r) == Some(id)
    ensures uri == CONTENT_URI ==> IsItemUri(r)
  {
    uri.(path := uri.path + [Number(id)])
  }

  /** A row of the pets table, keyed elsewhere by its _id; breed is the one nullable column. */
  datatype Pet = Pet(name: string, breed: Option<string>, gender: int, weight: int)
}
