/** Calendar snapshots: what their content and metadata checksums cover, signing and verifying.
    The digest of a canonical form (its text hashed with SHA-256) is uninterpreted. */
module CalendarChecksum {
  import opened Options
  import opened StableSort
  import opened CanonicalJson

  const CANONICALIZATION_VERSION: Json := Str("calendar-c14n-v1")

  const METADATA_EXCLUDED: set<string> :=
    {"contentChecksum", "metadataHash", "checksum", "generatedAt", "loaderTimestamp", "provenanceChecksum",
     "contentChecksumVerified", "metadataHashVerified"}

  const CONTENT_EXCLUDED: set<string> := METADATA_EXCLUDED + {"verifiedAt"}

  /** A list of strings, or whatever else the member holds. */
  datatype Names = Names(list: seq<string>) | Other(value: Json)

  /** Lists that are missing or not arrays are None; the other members are Undefined if missing. */
  datatype Snapshot = Snapshot(
    canonicalizationVersion: Json, calendarId: Json, calendarVersion: Json, coverage: Json,
    markets: Names, sessionExceptions: Option<seq<Json>>, tradingDays: Option<seq<string>>,
    sources: Option<seq<Json>>, supersedes: Names, verifiedAt: Json,
    contentChecksum: Json, metadataHash: Json, provenanceChecksum: Json)

  // ----- orders -----

  function At(fields: seq<Field>, key: string): Json {
    if fields == [] then Undefined
    else if fields[0].key == key then fields[0].value
    else At(fields[1..], key)
  }

  /** The text a list is sorted by; `show` converts what is not a string. */
  function TextAt(show: Json -> string, j: Json, key: string): string {
    if !j.Obj? then ""
    else
      match At(j.fields, key)
      case Null => ""
      case Undefined => ""
      case Str(s) => s
      case other => show(other)
  }

  function DateText(show: Json -> string): Json -> string {
    j => TextAt(show, j, "date")
  }

  function SourceText(show: Json -> string): Json -> (string, string) {
    j => (TextAt(show, j, "sourceRef"), TextAt(show, j, "name"))
  }

  predicate PairBefore(a: (string, string), b: (string, string)) {
    Before(a.0, b.0) || (a.0 == b.0 && Before(a.1, b.1))
  }

  function ByDate(show: Json -> string): (Json, Json) -> bool {
    By(Before, DateText(show))
  }

  function BySource(show: Json -> string): (Json, Json) -> bool {
    By(PairBefore, SourceText(show))
  }

  lemma BeforeSplits(x: string, y: string, z: string)
    ensures Before(x, y) ==> !Before(y, x)
    ensures Before(x, z) ==> Before(x, y) || Before(y, z)
  {
    BeforeIsOrder(x, y, z);
    BeforeIsOrder(y, x, z);
    BeforeIsOrder(x, z, y);
    BeforeIsOrder(z, y, x);
  }

  lemma TextOrder()
    ensures TotalOrder(Before)
  {
    forall x: string, y: string, z: string
      ensures (Before(x, y) ==> !Before(y, x)) && (Before(x, z) ==> Before(x, y) || Before(y, z))
      ensures Before(x, y) || Before(y, x) || x == y
    {
      BeforeSplits(x, y, z);
      SameIfTied(x, y);
    }
  }

  lemma PairOrder()
    ensures TotalOrder(PairBefore)
  {
    forall x: (string, string), y: (string, string), z: (string, string)
      ensures (PairBefore(x, y) ==> !PairBefore(y, x)) && (PairBefore(x, z) ==> PairBefore(x, y) || PairBefore(y, z))
      ensures PairBefore(x, y) || PairBefore(y, x) || x == y
    {
      hide Before;
      BeforeSplits(x.0, y.0, z.0);
      BeforeSplits(y.0, z.0, x.0);
      BeforeSplits(x.1, y.1, z.1);
      SameIfTied(x.0, y.0);
      SameIfTied(x.1, y.1);
      SameIfTied(y.0, z.0);
    }
  }

  /** The object has this text under the key. */
  ghost predicate HasText(j: Json, key: string, text: string) {
    j.Obj? && KeysDistinct(j) && Field(key, Str(text)) in j.fields
  }

  lemma {:induction false} AtFinds(fields: seq<Field>, f: Field)
    requires f in fields && forall i, j :: 0 <= i < j < |fields| ==> fields[i].key != fields[j].key
    ensures At(fields, f.key) == f.value
  {
    var k :| 0 <= k < |fields| && fields[k] == f;
    if k > 0 {
      assert fields[1..][k-1] == f;
      AtFinds(fields[1..], f);
    }
  }

  /** Exceptions come in ascending order of the texts under their key "date". */
  lemma ExceptionsAscend(show: Json -> string, list: seq<Json>, i: nat, j: nat, a: string, b: string)
    requires i < j < |Sort(ByDate(show), list)|
    requires HasText(Sort(ByDate(show), list)[i], "date", a) && HasText(Sort(ByDate(show), list)[j], "date", b)
    ensures !Before(b, a) && multiset(Sort(ByDate(show), list)) == multiset(list)
  {
    var sorted := Sort(ByDate(show), list);
    TextOrder();
    KeyedOrder(Before, DateText(show));
    SortSorts(ByDate(show), list);
    hide Sort, WeakOrder, TotalOrder, Before, At;
    AtFinds(sorted[i].fields, Field("date", Str(a)));
    AtFinds(sorted[j].fields, Field("date", Str(b)));
  }

  /** Sources come in ascending order of the texts under "sourceRef", and of "name" where those agree. */
  lemma SourcesAscend(show: Json -> string, list: seq<Json>, i: nat, j: nat, a: (string, string), b: (string, string))
    requires i < j < |Sort(BySource(show), list)|
    requires var x, y := Sort(BySource(show), list)[i], Sort(BySource(show), list)[j];
             && HasText(x, "sourceRef", a.0) && HasText(x, "name", a.1)
             && HasText(y, "sourceRef", b.0) && HasText(y, "name", b.1)
    ensures !Before(b.0, a.0) && (a.0 == b.0 ==> !Before(b.1, a.1)) && multiset(Sort(BySource(show), list)) == multiset(list)
  {
    var sorted := Sort(BySource(show), list);
    PairOrder();
    KeyedOrder(PairBefore, SourceText(show));
    SortSorts(BySource(show), list);
    hide Sort, WeakOrder, TotalOrder, Before, At;
    AtFinds(sorted[i].fields, Field("sourceRef", Str(a.0)));
    AtFinds(sorted[i].fields, Field("name", Str(a.1)));
    AtFinds(sorted[j].fields, Field("sourceRef", Str(b.0)));
    AtFinds(sorted[j].fields, Field("name", Str(b.1)));
  }

  lemma SameIfTied(x: string, y: string)
    ensures !Before(x, y) && !Before(y, x) <==> x == y
  {
    BeforeIsOrder(x, y, "");
    BeforeIsOrder(x, x, "");
  }

  // ----- canonical content and metadata -----

  function Texts(list: seq<string>): Json {
    Arr(seq(|list|, i requires 0 <= i < |list| => Str(list[i])))
  }

  function SortedTexts(names: Names): Json {
    match names
    case Names(list) => Texts(Sort(Before, list))
    case Other(value) => value
  }

  function Content(show: Json -> string, s: Snapshot): Json {
    Obj([Field("calendarId", s.calendarId),
         Field("calendarVersion", s.calendarVersion),
         Field("canonicalizationVersion", s.canonicalizationVersion),
         Field("coverage", s.coverage),
         Field("markets", SortedTexts(s.markets)),
         Field("sessionExceptions", Arr(if s.sessionExceptions.Some? then Sort(ByDate(show), s.sessionExceptions.value) else [])),
         Field("tradingDays", SortedTexts(Names(if s.tradingDays.Some? then s.tradingDays.value else [])))])
  }

  function Metadata(show: Json -> string, s: Snapshot): Json {
    Obj([Field("sources", Arr(if s.sources.Some? then Sort(BySource(show), s.sources.value) else [])),
         Field("supersedes", if s.supersedes == Other(Undefined) then Null else SortedTexts(s.supersedes)),
         Field("verifiedAt", s.verifiedAt)])
  }

  function ContentForm(show: Json -> string, s: Snapshot): Json {
    Strip(Content(show, s), "", CONTENT_EXCLUDED)
  }

  function MetadataForm(show: Json -> string, s: Snapshot): Json {
    Strip(Metadata(show, s), "", METADATA_EXCLUDED)
  }

  // ----- which reorderings the canonical forms see -----

  ghost predicate NamesRearranged(s: Names, t: Names) {
    if s.Other? || t.Other? then s == t else multiset(s.list) == multiset(t.list)
  }

  lemma NamesSortAlike(s: Names, t: Names)
    requires NamesRearranged(s, t)
    ensures SortedTexts(s) == SortedTexts(t)
  {
    if s.Names? {
      TextOrder();
      forall i, j | 0 <= i < j < |s.list| && !Before(s.list[i], s.list[j]) && !Before(s.list[j], s.list[i])
        ensures s.list[i] == s.list[j]
      {
        SameIfTied(s.list[i], s.list[j]);
      }
      PermutationsAgree(Before, s.list, t.list);
    }
  }

  function ExceptionForm(): Json -> Json {
    j => Strip(j, "sessionExceptions", CONTENT_EXCLUDED)
  }

  function SourceForm(): Json -> Json {
    j => Strip(j, "sources", METADATA_EXCLUDED)
  }

  /** Session exceptions with one date have one canonical form. */
  ghost predicate DatesTellApart(show: Json -> string, list: seq<Json>) {
    OneForm(DateText(show), ExceptionForm(), list)
  }

  /** Sources with one reference and name have one canonical form. */
  ghost predicate NamesTellApart(show: Json -> string, list: seq<Json>) {
    OneForm(SourceText(show), SourceForm(), list)
  }

  /** The canonical forms of the exceptions in the order of the content. */
  function ExceptionForms(show: Json -> string, list: seq<Json>): seq<Json> {
    Image(ExceptionForm(), Sort(ByDate(show), list))
  }

  function SourceForms(show: Json -> string, list: seq<Json>): seq<Json> {
    Image(SourceForm(), Sort(BySource(show), list))
  }

  lemma ContentSeesExceptions(show: Json -> string, s: Snapshot, t: Snapshot)
    requires t == s.(sessionExceptions := t.sessionExceptions) && s.sessionExceptions.Some? && t.sessionExceptions.Some?
    ensures ContentForm(show, s) == ContentForm(show, t)
       <==> ExceptionForms(show, s.sessionExceptions.value) == ExceptionForms(show, t.sessionExceptions.value)
  {
    hide Sort, ByDate, SortedTexts;
    var v, w := Content(show, s), Content(show, t);
    assert v.fields[5].key == "sessionExceptions";
    assert SameKeys(v, w);
    ArrayForm(v.fields[5].value.items, "sessionExceptions", CONTENT_EXCLUDED, ExceptionForm());
    ArrayForm(w.fields[5].value.items, "sessionExceptions", CONTENT_EXCLUDED, ExceptionForm());
    hide Strip;
    OneMemberSeen(v, w, 5, "", CONTENT_EXCLUDED);
  }

  lemma ArrayForm(items: seq<Json>, parent: string, excluded: set<string>, form: Json -> Json)
    requires forall j :: form(j) == Strip(j, parent, excluded)
    ensures Strip(Arr(items), parent, excluded) == Arr(Image(form, items))
  {
    var stripped := Strip(Arr(items), parent, excluded);
    assert stripped.items == Image(form, items);
  }

  lemma MetadataSeesSources(show: Json -> string, s: Snapshot, t: Snapshot)
    requires t == s.(sources := t.sources) && s.sources.Some? && t.sources.Some?
    ensures MetadataForm(show, s) == MetadataForm(show, t)
       <==> SourceForms(show, s.sources.value) == SourceForms(show, t.sources.value)
  {
    hide Sort, BySource, SortedTexts;
    var v, w := Metadata(show, s), Metadata(show, t);
    assert SameKeys(v, w);
    ArrayForm(v.fields[0].value.items, "sources", METADATA_EXCLUDED, SourceForm());
    ArrayForm(w.fields[0].value.items, "sources", METADATA_EXCLUDED, SourceForm());
    hide Strip;
    OneMemberSeen(v, w, 0, "", METADATA_EXCLUDED);
  }

  /** No reordering of the session exceptions changes the canonical content if and only if
      exceptions with one date have one canonical form. */
  lemma ExceptionOrderInvisibleIff(show: Json -> string, s: Snapshot)
    requires s.sessionExceptions.Some?
    ensures DatesTellApart(show, s.sessionExceptions.value) <==>
              forall t :: multiset(t) == multiset(s.sessionExceptions.value) ==>
                ContentForm(show, s.(sessionExceptions := Some(t))) == ContentForm(show, s)
  {
    var list := s.sessionExceptions.value;
    ExceptionFormsForgetOrderIff(show, list);
    hide ContentForm, DatesTellApart, ExceptionForms;
    forall t: seq<Json>
      ensures ContentForm(show, s.(sessionExceptions := Some(t))) == ContentForm(show, s)
         <==> ExceptionForms(show, t) == ExceptionForms(show, list)
    {
      ContentSeesExceptions(show, s, s.(sessionExceptions := Some(t)));
    }
  }

  lemma ExceptionFormsForgetOrderIff(show: Json -> string, list: seq<Json>)
    ensures DatesTellApart(show, list) <==>
              forall t :: multiset(t) == multiset(list) ==> ExceptionForms(show, t) == ExceptionForms(show, list)
  {
    hide TotalOrder, OneForm, Sort, Image, ExceptionForm, DateText;
    TextOrder();
    FormsForgetOrderIff(Before, DateText(show), ExceptionForm(), list);
    if DatesTellApart(show, list) {
      forall t: seq<Json> | multiset(t) == multiset(list) ensures ExceptionForms(show, t) == ExceptionForms(show, list) {
        assert Image(ExceptionForm(), Sort(By(Before, DateText(show)), t))
            == Image(ExceptionForm(), Sort(By(Before, DateText(show)), list));
      }
    } else {
      var t: seq<Json> :| multiset(t) == multiset(list)
                          && Image(ExceptionForm(), Sort(By(Before, DateText(show)), t)) != Image(ExceptionForm(), Sort(By(Before, DateText(show)), list));
      assert ExceptionForms(show, t) != ExceptionForms(show, list);
    }
  }

  /** No reordering of the sources changes the canonical metadata if and only if sources with one
      reference and name have one canonical form. */
  lemma SourceOrderInvisibleIff(show: Json -> string, s: Snapshot)
    requires s.sources.Some?
    ensures NamesTellApart(show, s.sources.value) <==>
              forall t :: multiset(t) == multiset(s.sources.value) ==> MetadataForm(show, s.(sources := Some(t))) == MetadataForm(show, s)
  {
    var list := s.sources.value;
    SourceFormsForgetOrderIff(show, list);
    hide MetadataForm, NamesTellApart, SourceForms;
    forall t: seq<Json>
      ensures MetadataForm(show, s.(sources := Some(t))) == MetadataForm(show, s)
         <==> SourceForms(show, t) == SourceForms(show, list)
    {
      MetadataSeesSources(show, s, s.(sources := Some(t)));
    }
  }

  lemma SourceFormsForgetOrderIff(show: Json -> string, list: seq<Json>)
    ensures NamesTellApart(show, list) <==>
              forall t :: multiset(t) == multiset(list) ==> SourceForms(show, t) == SourceForms(show, list)
  {
    hide TotalOrder, OneForm, Sort, Image, SourceForm, SourceText;
    PairOrder();
    FormsForgetOrderIff(PairBefore, SourceText(show), SourceForm(), list);
    if NamesTellApart(show, list) {
      forall t: seq<Json> | multiset(t) == multiset(list) ensures SourceForms(show, t) == SourceForms(show, list) {
        assert Image(SourceForm(), Sort(By(PairBefore, SourceText(show)), t))
            == Image(SourceForm(), Sort(By(PairBefore, SourceText(show)), list));
      }
    } else {
      var t: seq<Json> :| multiset(t) == multiset(list)
                          && Image(SourceForm(), Sort(By(PairBefore, SourceText(show)), t)) != Image(SourceForm(), Sort(By(PairBefore, SourceText(show)), list));
      assert SourceForms(show, t) != SourceForms(show, list);
    }
  }

  /** The same list up to order, or no list on either side. */
  ghost predicate Rearranged<T>(s: Option<seq<T>>, t: Option<seq<T>>) {
    if s.None? || t.None? then s == t else multiset(s.value) == multiset(t.value)
  }

  /** Rearranging all lists at once, trading days, markets, superseded versions, exceptions told apart
      by date and sources told apart by reference and name, changes neither canonical form. */
  lemma RearrangingIsInvisible(show: Json -> string, s: Snapshot, t: Snapshot)
    requires t == s.(markets := t.markets, sessionExceptions := t.sessionExceptions, tradingDays := t.tradingDays,
                     sources := t.sources, supersedes := t.supersedes)
    requires NamesRearranged(s.markets, t.markets) && NamesRearranged(s.supersedes, t.supersedes)
    requires Rearranged(s.tradingDays, t.tradingDays)
    requires Rearranged(s.sessionExceptions, t.sessionExceptions) && (s.sessionExceptions.Some? ==> DatesTellApart(show, s.sessionExceptions.value))
    requires Rearranged(s.sources, t.sources) && (s.sources.Some? ==> NamesTellApart(show, s.sources.value))
    ensures ContentForm(show, s) == ContentForm(show, t) && MetadataForm(show, s) == MetadataForm(show, t)
  {
    hide DatesTellApart, NamesTellApart;
    var u := s.(sessionExceptions := t.sessionExceptions, sources := t.sources);
    NamesRearrangedInvisible(show, u, t);
    OnlyExceptions(show, s, s.(sessionExceptions := t.sessionExceptions), u);
    hide ContentForm, MetadataForm;
    if s.sessionExceptions.Some? {
      ExceptionOrderInvisibleIff(show, s);
    }
    if s.sources.Some? {
      SourceOrderInvisibleIff(show, s);
    }
  }

  lemma NamesRearrangedInvisible(show: Json -> string, s: Snapshot, t: Snapshot)
    requires t == s.(markets := t.markets, tradingDays := t.tradingDays, supersedes := t.supersedes)
    requires NamesRearranged(s.markets, t.markets) && NamesRearranged(s.supersedes, t.supersedes)
    requires Rearranged(s.tradingDays, t.tradingDays)
    ensures ContentForm(show, s) == ContentForm(show, t) && MetadataForm(show, s) == MetadataForm(show, t)
  {
    hide Strip, Sort, SortedTexts;
    NamesSortAlike(s.markets, t.markets);
    NamesSortAlike(s.supersedes, t.supersedes);
    if s.tradingDays.Some? {
      NamesSortAlike(Names(s.tradingDays.value), Names(t.tradingDays.value));
    }
  }

  /** The content has no sources and the metadata no exceptions. */
  lemma OnlyExceptions(show: Json -> string, s: Snapshot, e: Snapshot, u: Snapshot)
    requires e == s.(sessionExceptions := e.sessionExceptions) && u == e.(sources := u.sources)
    ensures ContentForm(show, u) == ContentForm(show, e)
    ensures MetadataForm(show, u) == MetadataForm(show, s.(sources := u.sources))
  {
    hide Strip, Sort, SortedTexts;
  }

  /** One trading-hours exception on 4 January 2100. */
  function OpeningAt(time: string): Json {
    Obj([Field("date", Str("2100-01-04")), Field("marketOpenTime", Str(time))])
  }

  const BARE_SNAPSHOT := Snapshot(CANONICALIZATION_VERSION, Str("id"), Str("v1"), Null, Names([]), Some([]), Some([]), Some([]),
                                  Other(Null), Null, Null, Null, Null)

  /** Two exceptions with one date and different opening times: swapping them changes the content. */
  lemma ExceptionOrderShows(show: Json -> string)
    ensures var a, b := OpeningAt("10:00"), OpeningAt("11:00");
            ContentForm(show, BARE_SNAPSHOT.(sessionExceptions := Some([a, b])))
            != ContentForm(show, BARE_SNAPSHOT.(sessionExceptions := Some([b, a])))
  {
    var a, b := OpeningAt("10:00"), OpeningAt("11:00");
    var s, t := BARE_SNAPSHOT.(sessionExceptions := Some([a, b])), BARE_SNAPSHOT.(sessionExceptions := Some([b, a]));
    OneDate(show, "10:00", "11:00");
    OneDate(show, "11:00", "10:00");
    DifferentForms();
    hide Sort, Strip, ContentForm, ExceptionForm, OpeningAt;
    PairSorted(ByDate(show), a, b);
    PairSorted(ByDate(show), b, a);
    ContentSeesExceptions(show, s, t);
    assert ExceptionForms(show, [a, b])[0] != ExceptionForms(show, [b, a])[0];
  }

  lemma OneDate(show: Json -> string, x: string, y: string)
    ensures !ByDate(show)(OpeningAt(x), OpeningAt(y))
  {
    SameIfTied("2100-01-04", "2100-01-04");
    hide Before;
    assert DateText(show)(OpeningAt(x)) == DateText(show)(OpeningAt(y)) == "2100-01-04";
  }

  lemma PairSorted<T>(before: (T, T) -> bool, x: T, y: T)
    requires !before(y, x)
    ensures Sort(before, [x, y]) == [x, y]
  {
    assert [x, y][..1] == [x] && [x][..0] == [];
    assert Sort(before, [x]) == [x];
  }

  lemma DifferentForms()
    ensures ExceptionForm()(OpeningAt("10:00")) != ExceptionForm()(OpeningAt("11:00"))
  {
    var v, w := OpeningAt("10:00"), OpeningAt("11:00");
    assert v.fields[1].key == "marketOpenTime" && v.fields[1].value.s[1] != w.fields[1].value.s[1];
    assert SameKeys(v, w);
    OneMemberSeen(v, w, 1, "sessionExceptions", CONTENT_EXCLUDED);
    hide Sort, StripEach;
    assert NormalizeTime(v.fields[1].value.s)[1] != NormalizeTime(w.fields[1].value.s)[1];
  }

  // ----- signing and verifying -----

  datatype Code = CanonicalizationUnsupported | ContentChecksumMismatch | MetadataHashMismatch

  datatype Verdict = Intact(contentChecksum: string, metadataHash: string) | Broken(code: Code)

  datatype Signing = Signed(snapshot: Snapshot) | Refused(code: Code)

  predicate IsSha256Hex(s: string) {
    |s| == 64 && forall i :: 0 <= i < 64 ==> '0' <= s[i] <= '9' || 'a' <= s[i] <= 'f'
  }

  ghost predicate HexDigest(digest: Json -> string) {
    forall j :: IsSha256Hex(digest(j))
  }

  /** A stored checksum passes if it is absent, or well-formed and the computed one. */
  predicate Passes(stored: Json, computed: string) {
    stored.Null? || stored.Undefined? || (stored.Str? && IsSha256Hex(stored.s) && stored.s == computed)
  }

  function VerifySnapshotIntegrity(show: Json -> string, digest: Json -> string, s: Snapshot): Verdict {
    if s.canonicalizationVersion != CANONICALIZATION_VERSION then Broken(CanonicalizationUnsupported)
    else
      var contentChecksum, metadataHash := digest(ContentForm(show, s)), digest(MetadataForm(show, s));
      if !Passes(s.contentChecksum, contentChecksum) then Broken(ContentChecksumMismatch)
      else if !Passes(s.metadataHash, metadataHash) then Broken(MetadataHashMismatch)
      else Intact(contentChecksum, metadataHash)
  }

  /** Absent, or the text that was computed. */
  ghost predicate Matches(stored: Json, computed: string) {
    stored in {Null, Undefined, Str(computed)}
  }

  /** A snapshot verifies exactly when its version is the one known and each checksum it carries is the
      computed one, anything else stored in its place included; the first of the three to fail is named. */
  lemma VerifiedIff(show: Json -> string, digest: Json -> string, s: Snapshot)
    requires HexDigest(digest)
    ensures var known := s.canonicalizationVersion == Str("calendar-c14n-v1");
            var content := Matches(s.contentChecksum, digest(ContentForm(show, s)));
            var metadata := Matches(s.metadataHash, digest(MetadataForm(show, s)));
            var r := VerifySnapshotIntegrity(show, digest, s);
            && (r == Broken(CanonicalizationUnsupported) <==> !known)
            && (r == Broken(ContentChecksumMismatch) <==> known && !content)
            && (r == Broken(MetadataHashMismatch) <==> known && content && !metadata)
            && (r.Intact? <==> known && content && metadata)
  {
    hide ContentForm, MetadataForm, IsSha256Hex;
  }

  /** The copy loses its provenance checksum and gains the two computed ones. */
  method WithChecksums(show: Json -> string, digest: Json -> string, s: Snapshot) returns (r: Signing)
    requires HexDigest(digest)
    ensures r.Refused? <==> s.canonicalizationVersion != CANONICALIZATION_VERSION
    ensures r.Refused? ==> r.code == CanonicalizationUnsupported
    ensures r.Signed? ==>
              && r.snapshot == s.(provenanceChecksum := Undefined, contentChecksum := r.snapshot.contentChecksum,
                                  metadataHash := r.snapshot.metadataHash)
              && VerifySnapshotIntegrity(show, digest, r.snapshot)
                 == Intact(digest(ContentForm(show, s)), digest(MetadataForm(show, s)))
              && r.snapshot.contentChecksum == Str(digest(ContentForm(show, s)))
              && r.snapshot.metadataHash == Str(digest(MetadataForm(show, s)))
  {
    hide IsSha256Hex, ContentForm, MetadataForm;
    var copy := s.(provenanceChecksum := Undefined);
    if copy.canonicalizationVersion != CANONICALIZATION_VERSION {
      return Refused(CanonicalizationUnsupported);
    }
    copy := copy.(contentChecksum := Str(digest(ContentForm(show, copy))));
    copy := copy.(metadataHash := Str(digest(MetadataForm(show, copy))));
    ChecksumsNotCovered(show, s, copy);
    ChecksumsNotCovered(show, s, s.(provenanceChecksum := Undefined));
    ChecksumsNotCovered(show, s, s.(provenanceChecksum := Undefined, contentChecksum := copy.contentChecksum));
    r := Signed(copy);
  }

  /** The stored checksums are no part of what they cover. */
  lemma ChecksumsNotCovered(show: Json -> string, s: Snapshot, t: Snapshot)
    requires t == s.(contentChecksum := t.contentChecksum, metadataHash := t.metadataHash, provenanceChecksum := t.provenanceChecksum)
    ensures ContentForm(show, s) == ContentForm(show, t) && MetadataForm(show, s) == MetadataForm(show, t)
  {
    hide Strip;
  }

  // ----- what the checksums cover, member by member -----

  /** The members hold nothing but objects with distinct keys. */
  ghost predicate WellKeyed(s: Snapshot) {
    && KeysDistinct(s.calendarId) && KeysDistinct(s.calendarVersion) && KeysDistinct(s.canonicalizationVersion)
    && KeysDistinct(s.coverage) && KeysDistinct(s.verifiedAt)
    && (s.markets.Other? ==> KeysDistinct(s.markets.value)) && (s.supersedes.Other? ==> KeysDistinct(s.supersedes.value))
    && (forall e <- OrEmpty(s.sessionExceptions) :: KeysDistinct(e)) && (forall e <- OrEmpty(s.sources) :: KeysDistinct(e))
  }

  function OrEmpty<T>(list: Option<seq<T>>): seq<T> {
    if list.Some? then list.value else []
  }

  /** Lists of names are told apart by what they hold however often, other values by their meaning. */
  ghost predicate SameNames(a: Names, b: Names, key: string, excluded: set<string>) {
    if a.Names? && b.Names? then multiset(a.list) == multiset(b.list)
    else if a.Names? then SameMember(Texts(Sort(Before, a.list)), b.value, key, excluded)
    else if b.Names? then SameMember(a.value, Texts(Sort(Before, b.list)), key, excluded)
    else SameMember(a.value, b.value, key, excluded)
  }

  ghost predicate SameEach(a: seq<Json>, b: seq<Json>, key: string, excluded: set<string>) {
    |a| == |b| && forall i :: 0 <= i < |a| ==> Meaning(a[i], key, excluded) == Meaning(b[i], key, excluded)
  }

  ghost predicate SameMember(a: Json, b: Json, key: string, excluded: set<string>) {
    Meaning(a, key, excluded) == Meaning(b, key, excluded)
  }

  /** A superseded version that is missing is one that is null. */
  function OrNull(names: Names): Names {
    if names == Other(Undefined) then Other(Null) else names
  }

  ghost predicate SameContent(show: Json -> string, s: Snapshot, t: Snapshot) {
    && SameMember(s.calendarId, t.calendarId, "calendarId", CONTENT_EXCLUDED)
    && SameMember(s.calendarVersion, t.calendarVersion, "calendarVersion", CONTENT_EXCLUDED)
    && SameMember(s.canonicalizationVersion, t.canonicalizationVersion, "canonicalizationVersion", CONTENT_EXCLUDED)
    && SameMember(s.coverage, t.coverage, "coverage", CONTENT_EXCLUDED)
    && SameNames(s.markets, t.markets, "markets", CONTENT_EXCLUDED)
    && SameEach(Sort(ByDate(show), OrEmpty(s.sessionExceptions)), Sort(ByDate(show), OrEmpty(t.sessionExceptions)),
                "sessionExceptions", CONTENT_EXCLUDED)
    && multiset(OrEmpty(s.tradingDays)) == multiset(OrEmpty(t.tradingDays))
  }

  ghost predicate SameMetadata(show: Json -> string, s: Snapshot, t: Snapshot) {
    && SameEach(Sort(BySource(show), OrEmpty(s.sources)), Sort(BySource(show), OrEmpty(t.sources)), "sources", METADATA_EXCLUDED)
    && SameNames(OrNull(s.supersedes), OrNull(t.supersedes), "supersedes", METADATA_EXCLUDED)
    && SameMember(s.verifiedAt, t.verifiedAt, "verifiedAt", METADATA_EXCLUDED)
  }

  lemma NamesSeen(a: Names, b: Names, key: string, excluded: set<string>)
    requires key !in TIME_KEYS && (a.Other? ==> KeysDistinct(a.value)) && (b.Other? ==> KeysDistinct(b.value))
    ensures SameForm(SortedTexts(a), SortedTexts(b), key, excluded) <==> SameNames(a, b, key, excluded)
  {
    hide Sort;
    if a.Names? && b.Names? {
      hide KeysDistinct;
      var sa, sb := Sort(Before, a.list), Sort(Before, b.list);
      TextsAreThemselves(sa, key, excluded);
      TextsAreThemselves(sb, key, excluded);
      SameTexts(sa, sb);
      TextOrder();
      SortSorts(Before, a.list);
      SortSorts(Before, b.list);
      hide Strip, Texts;
      if multiset(a.list) == multiset(b.list) {
        NamesSortAlike(a, b);
      }
    } else {
      CanonicalIffSameMeaning(SortedTexts(a), SortedTexts(b), key, excluded);
    }
  }

  lemma SameTexts(a: seq<string>, b: seq<string>)
    ensures Texts(a) == Texts(b) <==> a == b
  {
    if Texts(a) == Texts(b) {
      assert |a| == |Texts(a).items| == |b|;
      forall i | 0 <= i < |a| ensures a[i] == b[i] {
        assert Texts(a).items[i] == Texts(b).items[i];
      }
    }
  }

  lemma TextsAreThemselves(list: seq<string>, key: string, excluded: set<string>)
    requires key !in TIME_KEYS
    ensures Strip(Texts(list), key, excluded) == Texts(list)
  {
    assert Strip(Texts(list), key, excluded).items == Texts(list).items;
  }

  lemma ListsSeen(a: seq<Json>, b: seq<Json>, key: string, excluded: set<string>)
    requires (forall e <- a :: KeysDistinct(e)) && (forall e <- b :: KeysDistinct(e))
    ensures SameForm(Arr(a), Arr(b), key, excluded) <==> SameEach(a, b, key, excluded)
  {
    CanonicalIffSameMeaning(Arr(a), Arr(b), key, excluded);
    hide Strip, KeysDistinct;
    var ma, mb := Meaning(Arr(a), key, excluded), Meaning(Arr(b), key, excluded);
    if ma == mb {
      assert |a| == |ma.items| == |mb.items| == |b|;
      forall i | 0 <= i < |a| ensures Meaning(a[i], key, excluded) == Meaning(b[i], key, excluded) {
        assert ma.items[i] == mb.items[i];
      }
    }
    if SameEach(a, b, key, excluded) {
      assert ma.items == mb.items;
    }
  }

  lemma SortedMembers<T(!new)>(before: (T, T) -> bool, s: seq<T>)
    requires WeakOrder(before)
    ensures forall e <- Sort(before, s) :: e in s
  {
    SortSorts(before, s);
    hide Sort;
    forall e <- Sort(before, s) ensures e in s {
      assert e in multiset(Sort(before, s));
    }
  }

  lemma OrderedWellKeyed(show: Json -> string, s: Snapshot)
    requires WellKeyed(s)
    ensures forall e <- Sort(ByDate(show), OrEmpty(s.sessionExceptions)) :: KeysDistinct(e)
    ensures forall e <- Sort(BySource(show), OrEmpty(s.sources)) :: KeysDistinct(e)
  {
    TextOrder();
    PairOrder();
    KeyedOrder(Before, DateText(show));
    KeyedOrder(PairBefore, SourceText(show));
    SortedMembers(ByDate(show), OrEmpty(s.sessionExceptions));
    SortedMembers(BySource(show), OrEmpty(s.sources));
  }

  lemma ContentKeys(show: Json -> string, s: Snapshot, t: Snapshot)
    ensures SameKeys(Content(show, s), Content(show, t))
    ensures forall i :: 0 <= i < 7 ==> Content(show, s).fields[i].key !in CONTENT_EXCLUDED
  {
    hide SortedTexts, ByDate, Sort;
    var v := Content(show, s);
    assert v.fields[0].key == "calendarId" && v.fields[6].key == "tradingDays";
  }

  ghost predicate SameForm(a: Json, b: Json, key: string, excluded: set<string>) {
    Strip(a, key, excluded) == Strip(b, key, excluded)
  }

  function Exceptions(show: Json -> string, s: Snapshot): Json {
    Arr(Sort(ByDate(show), OrEmpty(s.sessionExceptions)))
  }

  function Days(s: Snapshot): Json {
    SortedTexts(Names(OrEmpty(s.tradingDays)))
  }

  lemma ContentMembers(show: Json -> string, s: Snapshot)
    ensures var v := Content(show, s);
            && v.Obj? && |v.fields| == 7
            && v.fields[0] == Field("calendarId", s.calendarId)
            && v.fields[1] == Field("calendarVersion", s.calendarVersion)
            && v.fields[2] == Field("canonicalizationVersion", s.canonicalizationVersion)
            && v.fields[3] == Field("coverage", s.coverage)
            && v.fields[4] == Field("markets", SortedTexts(s.markets))
            && v.fields[5] == Field("sessionExceptions", Exceptions(show, s))
            && v.fields[6] == Field("tradingDays", Days(s))
  {
    assert Sort(ByDate(show), []) == [];
    hide SortedTexts, ByDate, Sort;
  }

  /** The canonical contents are equal exactly when those of the seven members are. */
  lemma ContentSplits(show: Json -> string, s: Snapshot, t: Snapshot)
    ensures ContentForm(show, s) == ContentForm(show, t) <==>
              && SameForm(s.calendarId, t.calendarId, "calendarId", CONTENT_EXCLUDED)
              && SameForm(s.calendarVersion, t.calendarVersion, "calendarVersion", CONTENT_EXCLUDED)
              && SameForm(s.canonicalizationVersion, t.canonicalizationVersion, "canonicalizationVersion", CONTENT_EXCLUDED)
              && SameForm(s.coverage, t.coverage, "coverage", CONTENT_EXCLUDED)
              && SameForm(SortedTexts(s.markets), SortedTexts(t.markets), "markets", CONTENT_EXCLUDED)
              && SameForm(Exceptions(show, s), Exceptions(show, t), "sessionExceptions", CONTENT_EXCLUDED)
              && SameForm(Days(s), Days(t), "tradingDays", CONTENT_EXCLUDED)
  {
    var v, w := Content(show, s), Content(show, t);
    ContentKeys(show, s, t);
    ContentMembers(show, s);
    ContentMembers(show, t);
    hide Content, SortedTexts, ByDate, Sort, SameKeys, Strip, CONTENT_EXCLUDED;
    AllMembersSeen(v, w, "", CONTENT_EXCLUDED);
    assert MemberAlike(v, w, 0, CONTENT_EXCLUDED) <==> SameForm(s.calendarId, t.calendarId, "calendarId", CONTENT_EXCLUDED);
    assert MemberAlike(v, w, 1, CONTENT_EXCLUDED) <==> SameForm(s.calendarVersion, t.calendarVersion, "calendarVersion", CONTENT_EXCLUDED);
    assert MemberAlike(v, w, 2, CONTENT_EXCLUDED)
      <==> SameForm(s.canonicalizationVersion, t.canonicalizationVersion, "canonicalizationVersion", CONTENT_EXCLUDED);
    assert MemberAlike(v, w, 3, CONTENT_EXCLUDED) <==> SameForm(s.coverage, t.coverage, "coverage", CONTENT_EXCLUDED);
    assert MemberAlike(v, w, 4, CONTENT_EXCLUDED) <==> SameForm(SortedTexts(s.markets), SortedTexts(t.markets), "markets", CONTENT_EXCLUDED);
    assert MemberAlike(v, w, 5, CONTENT_EXCLUDED)
      <==> SameForm(Exceptions(show, s), Exceptions(show, t), "sessionExceptions", CONTENT_EXCLUDED);
    assert MemberAlike(v, w, 6, CONTENT_EXCLUDED) <==> SameForm(Days(s), Days(t), "tradingDays", CONTENT_EXCLUDED);
    hide MemberAlike, SameForm, Exceptions, Days;
  }

  lemma MeaningSeen(a: Json, b: Json, key: string, excluded: set<string>)
    requires KeysDistinct(a) && KeysDistinct(b)
    ensures SameForm(a, b, key, excluded) <==> SameMember(a, b, key, excluded)
  {
    CanonicalIffSameMeaning(a, b, key, excluded);
  }

  lemma ListsCover(show: Json -> string, s: Snapshot, t: Snapshot)
    requires WellKeyed(s) && WellKeyed(t)
    ensures SameForm(Exceptions(show, s), Exceptions(show, t), "sessionExceptions", CONTENT_EXCLUDED)
       <==> SameEach(Sort(ByDate(show), OrEmpty(s.sessionExceptions)), Sort(ByDate(show), OrEmpty(t.sessionExceptions)),
                     "sessionExceptions", CONTENT_EXCLUDED)
    ensures SameForm(Days(s), Days(t), "tradingDays", CONTENT_EXCLUDED)
       <==> multiset(OrEmpty(s.tradingDays)) == multiset(OrEmpty(t.tradingDays))
  {
    OrderedWellKeyed(show, s);
    OrderedWellKeyed(show, t);
    hide Sort, SameForm, SortedTexts, ByDate, KeysDistinct, SameEach, WellKeyed, CONTENT_EXCLUDED;
    ListsSeen(Sort(ByDate(show), OrEmpty(s.sessionExceptions)), Sort(ByDate(show), OrEmpty(t.sessionExceptions)), "sessionExceptions", CONTENT_EXCLUDED);
    NamesSeen(Names(OrEmpty(s.tradingDays)), Names(OrEmpty(t.tradingDays)), "tradingDays", CONTENT_EXCLUDED);
  }

  lemma ValuesCover(s: Snapshot, t: Snapshot)
    requires WellKeyed(s) && WellKeyed(t)
    ensures SameForm(s.calendarId, t.calendarId, "calendarId", CONTENT_EXCLUDED)
       <==> SameMember(s.calendarId, t.calendarId, "calendarId", CONTENT_EXCLUDED)
    ensures SameForm(s.calendarVersion, t.calendarVersion, "calendarVersion", CONTENT_EXCLUDED)
       <==> SameMember(s.calendarVersion, t.calendarVersion, "calendarVersion", CONTENT_EXCLUDED)
    ensures SameForm(s.canonicalizationVersion, t.canonicalizationVersion, "canonicalizationVersion", CONTENT_EXCLUDED)
       <==> SameMember(s.canonicalizationVersion, t.canonicalizationVersion, "canonicalizationVersion", CONTENT_EXCLUDED)
    ensures SameForm(s.coverage, t.coverage, "coverage", CONTENT_EXCLUDED) <==> SameMember(s.coverage, t.coverage, "coverage", CONTENT_EXCLUDED)
    ensures SameForm(SortedTexts(s.markets), SortedTexts(t.markets), "markets", CONTENT_EXCLUDED)
       <==> SameNames(s.markets, t.markets, "markets", CONTENT_EXCLUDED)
  {
    hide SameForm, SortedTexts, KeysDistinct, SameMember, SameNames, CONTENT_EXCLUDED;
    MeaningSeen(s.calendarId, t.calendarId, "calendarId", CONTENT_EXCLUDED);
    MeaningSeen(s.calendarVersion, t.calendarVersion, "calendarVersion", CONTENT_EXCLUDED);
    MeaningSeen(s.canonicalizationVersion, t.canonicalizationVersion, "canonicalizationVersion", CONTENT_EXCLUDED);
    MeaningSeen(s.coverage, t.coverage, "coverage", CONTENT_EXCLUDED);
    NamesSeen(s.markets, t.markets, "markets", CONTENT_EXCLUDED);
  }

  /** The canonical contents are equal exactly when every member the content checksum covers is the
      same: by meaning, as the same trading days and markets, and exception by exception in date order. */
  lemma ContentCovers(show: Json -> string, s: Snapshot, t: Snapshot)
    requires WellKeyed(s) && WellKeyed(t)
    ensures ContentForm(show, s) == ContentForm(show, t) <==> SameContent(show, s, t)
  {
    ContentSplits(show, s, t);
    ListsCover(show, s, t);
    ValuesCover(s, t);
    hide ContentForm, Sort, SameForm, SortedTexts, ByDate, KeysDistinct, SameEach, SameMember, SameNames, Exceptions, Days, OrEmpty, WellKeyed, CONTENT_EXCLUDED;
  }

  /** The canonical metadata are equal exactly when those of the three members are. */
  lemma MetadataSplits(show: Json -> string, s: Snapshot, t: Snapshot)
    ensures MetadataForm(show, s) == MetadataForm(show, t) <==>
              && SameForm(Arr(Sort(BySource(show), OrEmpty(s.sources))), Arr(Sort(BySource(show), OrEmpty(t.sources))), "sources", METADATA_EXCLUDED)
              && SameForm(SortedTexts(OrNull(s.supersedes)), SortedTexts(OrNull(t.supersedes)), "supersedes", METADATA_EXCLUDED)
              && SameForm(s.verifiedAt, t.verifiedAt, "verifiedAt", METADATA_EXCLUDED)
  {
    assert Sort(BySource(show), []) == [];
    hide Sort, Strip, BySource, Texts;
    var v, w := Metadata(show, s), Metadata(show, t);
    assert SameKeys(v, w);
    AllMembersSeen(v, w, "", METADATA_EXCLUDED);
    hide METADATA_EXCLUDED, SameKeys;
    assert MemberAlike(v, w, 0, METADATA_EXCLUDED) && MemberAlike(v, w, 1, METADATA_EXCLUDED) && MemberAlike(v, w, 2, METADATA_EXCLUDED)
      <==> MetadataForm(show, s) == MetadataForm(show, t);
  }

  /** The same for every member the metadata hash covers. */
  lemma MetadataCovers(show: Json -> string, s: Snapshot, t: Snapshot)
    requires WellKeyed(s) && WellKeyed(t)
    ensures MetadataForm(show, s) == MetadataForm(show, t) <==> SameMetadata(show, s, t)
  {
    OrderedWellKeyed(show, s);
    OrderedWellKeyed(show, t);
    MetadataSplits(show, s, t);
    hide MetadataForm, Sort, SameForm, SortedTexts, BySource, KeysDistinct, SameNames, SameEach, SameMember, METADATA_EXCLUDED;
    ListsSeen(Sort(BySource(show), OrEmpty(s.sources)), Sort(BySource(show), OrEmpty(t.sources)), "sources", METADATA_EXCLUDED);
    NamesSeen(OrNull(s.supersedes), OrNull(t.supersedes), "supersedes", METADATA_EXCLUDED);
    MeaningSeen(s.verifiedAt, t.verifiedAt, "verifiedAt", METADATA_EXCLUDED);
  }

  ghost predicate NoCollision(digest: Json -> string, a: Json, b: Json) {
    digest(a) == digest(b) ==> a == b
  }

  /** A snapshot carrying the checksums of another verifies exactly when all its covered members are
      the same as the other's, barring a collision of the digest on just these forms. */
  lemma EditsAreSeen(show: Json -> string, digest: Json -> string, s: Snapshot, t: Snapshot)
    requires HexDigest(digest) && WellKeyed(s) && WellKeyed(t)
    requires t.canonicalizationVersion == CANONICALIZATION_VERSION
    requires t.contentChecksum == Str(digest(ContentForm(show, s))) && t.metadataHash == Str(digest(MetadataForm(show, s)))
    requires NoCollision(digest, ContentForm(show, s), ContentForm(show, t))
    requires NoCollision(digest, MetadataForm(show, s), MetadataForm(show, t))
    ensures VerifySnapshotIntegrity(show, digest, t).Intact? <==> SameContent(show, s, t) && SameMetadata(show, s, t)
    ensures !SameContent(show, s, t) ==> VerifySnapshotIntegrity(show, digest, t) == Broken(ContentChecksumMismatch)
    ensures SameContent(show, s, t) && !SameMetadata(show, s, t) ==>
              VerifySnapshotIntegrity(show, digest, t) == Broken(MetadataHashMismatch)
  {
    hide ContentForm, MetadataForm, SameContent, SameMetadata, IsSha256Hex, WellKeyed;
    ContentCovers(show, s, t);
    MetadataCovers(show, s, t);
  }
}
