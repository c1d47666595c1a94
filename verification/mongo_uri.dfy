/**
 The start-up normalisation of the database connection string (App.js, the
 immediately invoked function before the app is built): pick the configured
 URI, append the database name when the path names no database, and fall
 back to a local default.
 */
module MongoUri {
  import opened Wrappers

  const DefaultUri: string := "mongodb://localhost:27017/fitness-trainer"

  /** Characters of a path segment in the `hasDbInPath` pattern: anything but `/` and `?`. */
  predicate SegmentChar(c: char) {
    c != '/' && c != '?'
  }

  predicate RunChars(s: string, a: int, b: int)
    requires 0 <= a <= b <= |s|
  {
    forall m :: a <= m < b ==> SegmentChar(s[m])
  }

  /**
   One match of `/\/(?!\/)[^/?]+(?:\?|$)/` that starts at `i` and whose
   segment ends at `j`: a slash, at least one segment character (which makes
   the look-ahead for a second slash hold), then a `?` or the end of the text.
   */
  predicate MatchAt(s: string, i: int, j: int) {
    && 0 <= i && i + 1 < j <= |s|
    && s[i] == '/' && RunChars(s, i + 1, j)
    && (j == |s| || s[j] == '?')
  }

  /** `hasDbInPath`: the pattern matches somewhere in the text. */
  ghost predicate HasDbInPath(s: string) {
    exists i, j :: MatchAt(s, i, j)
  }

  /**
   Decides the pattern in one left-to-right pass, remembering the last slash
   that has only segment characters after it.
   */
  method ScanDbInPath(s: string) returns (found: bool)
    ensures found <==> HasDbInPath(s)
  {
    var last := -1;
    var k := 0;
    while k < |s|
      invariant 0 <= k <= |s|
      invariant -1 <= last < k
      invariant last >= 0 ==> s[last] == '/' && RunChars(s, last + 1, k)
      invariant forall i :: 0 <= i < k && s[i] == '/' && RunChars(s, i + 1, k) ==> i == last
      invariant forall i, j :: j < k ==> !MatchAt(s, i, j)
    {
      if s[k] == '?' {
        if last >= 0 && k > last + 1 {
          assert MatchAt(s, last, k);
          return true;
        }
        last := -1;
      } else if s[k] == '/' {
        last := k;
      }
      k := k + 1;
    }
    found := last >= 0 && |s| > last + 1;
    if found {
      assert MatchAt(s, last, |s|);
    }
  }

  /** `s.replace(/\/+$/, '')`: every trailing slash removed. */
  function StripTrailingSlashes(s: string): (r: string)
    ensures r <= s
    ensures forall m :: |r| <= m < |s| ==> s[m] == '/'
    ensures |r| == 0 || r[|r| - 1] != '/'
  {
    if |s| > 0 && s[|s| - 1] == '/' then StripTrailingSlashes(s[..|s| - 1]) else s
  }

  /** `s.replace(/^\/+/, '')`: every leading slash removed. */
  function StripLeadingSlashes(s: string): (r: string)
    ensures |r| <= |s| && r == s[|s| - |r|..]
    ensures forall m :: 0 <= m < |s| - |r| ==> s[m] == '/'
    ensures |r| == 0 || r[0] != '/'
  {
    if |s| > 0 && s[0] == '/' then StripLeadingSlashes(s[1..]) else s
  }

  /** The environment value used as text: JavaScript's truthiness of an optional string. */
  predicate Set(v: Option<string>) {
    v.Some? && v.value != ""
  }

  /**
   The connection string handed to `connectDB`, from `MONGODB_URI`,
   `MONGODB_URL` and `DB_NAME`.
   */
  method ResolveMongoUri(uriVar: Option<string>, urlVar: Option<string>, dbName: Option<string>)
    returns (uri: string)
    ensures !Set(uriVar) && !Set(urlVar) ==> uri == DefaultUri
    ensures var raw := if Set(uriVar) then uriVar.value else urlVar.GetOr("");
      raw != "" ==>
        if Set(dbName) && !HasDbInPath(raw) then uri == StripTrailingSlashes(raw) + "/" + dbName.value
        else uri == StripLeadingSlashes(raw)
  {
    var raw := if Set(uriVar) then uriVar.value else urlVar.GetOr("");
    if raw != "" {
      var hasDb := ScanDbInPath(raw);
      if Set(dbName) && !hasDb {
        uri := StripTrailingSlashes(raw) + "/" + dbName.value;
      } else {
        uri := StripLeadingSlashes(raw);
      }
    } else {
      uri := DefaultUri;
    }
  }

  /**
   The appended form names a database: a name without `/` or `?` put behind a
   text satisfies the pattern, so resolving the result a second time does not
   append the name again.
   */
  lemma AppendedNamesDatabase(raw: string, db: string)
    requires db != "" && forall m :: 0 <= m < |db| ==> SegmentChar(db[m])
    ensures HasDbInPath(StripTrailingSlashes(raw) + "/" + db)
  {
    var base := StripTrailingSlashes(raw);
    var s := base + "/" + db;
    assert s[|base|] == '/';
    forall m | |base| + 1 <= m < |s| ensures SegmentChar(s[m]) {
      assert s[m] == db[m - |base| - 1];
    }
    assert MatchAt(s, |base|, |s|);
  }

  /** The local default names the `fitness-trainer` database. */
  lemma DefaultNamesDatabase()
    ensures HasDbInPath(DefaultUri)
  {
    assert MatchAt(DefaultUri, 25, |DefaultUri|);
  }

  /**
   The pattern also matches the host of a URI that has no path at all: for
   `mongodb://h:1` the second slash of `//` followed by `h:1` is taken as a
   database segment, so `DB_NAME` is not appended.
   */
  lemma HostOnlyLooksLikeDatabase()
    ensures HasDbInPath("mongodb://h:1")
  {
    assert MatchAt("mongodb://h:1", 9, 13);
  }

  /** A text that ends in a slash and has no `?` never matches: its last segment is empty. */
  lemma SlashEndHasNoDatabase(s: string)
    requires |s| > 0 && s[|s| - 1] == '/'
    requires forall m :: 0 <= m < |s| ==> s[m] != '?'
    ensures !HasDbInPath(s)
  {
    forall i, j ensures !MatchAt(s, i, j) {
      if 0 <= i && i + 1 < j == |s| {
        assert !SegmentChar(s[j - 1]);
      }
    }
  }

  /** With a trailing slash the same URI has no database in its path. */
  lemma TrailingSlashHasNoDatabase()
    ensures !HasDbInPath("mongodb://h:1/")
  {
    SlashEndHasNoDatabase("mongodb://h:1/");
  }

  /** A query string after the database segment still counts as a database. */
  lemma QueryAfterDatabase()
    ensures HasDbInPath("mongodb://h:1/app?retryWrites=true")
  {
    assert MatchAt("mongodb://h:1/app?retryWrites=true", 13, 17);
  }
}
