/**
 * The provider's URI matcher: a table of registered (authority, path pattern,
 * code) entries, the first-match lookup over it, and the three routes it
 * sorts every content URI into.
 */
module UriMatching {
  import opened PetContract

  /** One segment of a registered path pattern: literal text, or "#", any numeric segment. */
  datatype PatternPart = Exact(text: string) | AnyNumber

  datatype Registration = Registration(authority: string, pattern: seq<PatternPart>, code: int)

  /** The matcher's code for a URI no registration matches. */
  const NO_MATCH: int := -1
  /** Code of the collection form. */
  const PETS: int := 100
  /** Code of the item form. */
  const PETS_ID: int := 101

  /** The two registrations made when the provider class is loaded: "pets", then "pets/#". */
  const REGISTRATIONS: seq<Registration> := [
    Registration(CONTENT_AUTHORITY, [Exact(PATH_PETS)], PETS),
    Registration(CONTENT_AUTHORITY, [Exact(PATH_PETS), AnyNumber], PETS_ID)
  ]

  predicate PartMatches(part: PatternPart, s: Segment) {
    match part
    case Exact(t) => s.Word? && s.text == t
    case AnyNumber => s.Number?
  }

  /** A registration matches a URI with its authority whose path has exactly the pattern's segments. */
  predicate Matches(reg: Registration, uri: Uri) {
    && reg.authority == uri.authority
    && |reg.pattern| == |uri.path|
    && forall i :: 0 <= i < |uri.path| ==> PartMatches(reg.pattern[i], uri.path[i])
  }

  /** The code of the first registration that matches `uri`, or NO_MATCH when none does. */
  function Match(table: seq<Registration>, uri: Uri): (code: int)
    ensures (forall k :: 0 <= k < |table| ==> !Matches(table[k], uri)) ==> code == NO_MATCH
    ensures forall k ::
              0 <= k < |table| && Matches(table[k], uri) && (forall j :: 0 <= j < k ==> !Matches(table[j], uri))
              ==> code == table[k].code
  {
    if table == [] then NO_MATCH
    else if Matches(table[0], uri) then table[0].code
    else
      Match(table[1..], uri)
  }

  /** Over the provider's registrations, the collection URI gets PETS, an item URI PETS_ID, anything else NO_MATCH. */
  lemma MatchRegistrations(uri: Uri)
    ensures Match(REGISTRATIONS, uri) == (if uri == CONTENT_URI then PETS else if IsItemUri(uri) then PETS_ID else NO_MATCH)
  {
  }

  /** The three cases the provider's operations switch on. */
  datatype Route = Collection | Item(id: nat) | Unmatched

  /** Matches `uri` and, for the item form, parses the trailing number. */
  function RouteOf(uri: Uri): (r: Route)
    ensures r == Collection <==> uri == CONTENT_URI
    ensures r.Item? <==> IsItemUri(uri)
    ensures r.Item? ==> uri == WithAppendedId(CONTENT_URI, r.id)
  {
    MatchRegistrations(uri);
    var code := Match(REGISTRATIONS, uri);
    if code == PETS then Collection
    else if code == PETS_ID then Item(ParseId(uri).value)
    else Unmatched
  }
}
