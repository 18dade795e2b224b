/**
 The manifest of an artifact in src/vgi_database_worker.cpp: what is written, what it is compared in, and
 what rewriting its last_used stamp in the text does to the comparison.
 */
module Manifest {
  import opened Options
  import opened MetaText
  import opened Stamping

  /** What TouchLastUsed looks for. */
  const KEY: Key := "last_used="

  function TouchLastUsed(body: string, stamp: string): Option<string> {
    Touch(KEY, body, stamp)
  }

  datatype Artifact = Artifact(id: string, digest: string, format: string, entrypoint: string)

  predicate Matches(body: string, a: Artifact) {
    Field(body, "manifest_version") == "1" && Field(body, "artifact_id") == a.id &&
    Field(body, "digest") == a.digest && Field(body, "package_format") == a.format &&
    Field(body, "entrypoint") == a.entrypoint
  }

  function CleanMeta(value: string): (r: string)
    ensures '\n' !in r && '\r' !in r
    ensures r == value <==> '\n' !in value && '\r' !in value
    ensures |r| <= |value|
  {
    if value == "" then ""
    else if value[0] == '\n' || value[0] == '\r' then CleanMeta(value[1..])
    else
      assert value == [value[0]] + value[1..];
      [value[0]] + CleanMeta(value[1..])
  }

  /** The names, in the order they are written. */
  function NameOf(k: nat): string {
    match k
    case 0 => "manifest_version"
    case 1 => "artifact_id"
    case 2 => "source"
    case 3 => "digest"
    case 4 => "package_format"
    case 5 => "entrypoint"
    case 6 => "size_bytes"
    case 7 => "installed_at"
    case _ => "last_used"
  }

  /** The fields of a manifest. */
  function Entries(source: string, a: Artifact, size: Numeral, now: Numeral): seq<Entry> {
    [Entry(NameOf(0), "1"), Entry(NameOf(1), CleanMeta(a.id)), Entry(NameOf(2), CleanMeta(source)),
     Entry(NameOf(3), CleanMeta(a.digest)), Entry(NameOf(4), CleanMeta(a.format)),
     Entry(NameOf(5), CleanMeta(a.entrypoint)), Entry(NameOf(6), size), Entry(NameOf(7), now),
     Entry(NameOf(8), now)]
  }

  function ManifestBody(source: string, a: Artifact, size: Numeral, now: Numeral): string {
    Render(Entries(source, a, size, now))
  }

  // ---------------------------------------------------------------------------------------------
  // Stamping any manifest
  // ---------------------------------------------------------------------------------------------

  lemma {:induction false} NotTheKey(name: string)
    requires '=' !in name && |name| >= 2 && !(name[|name| - 2] == 'e' && name[|name| - 1] == 'd')
    ensures !KeyName(KEY, name)
  {
    var s := name + "=";
    forall i: nat ensures !At(KEY, s, i) {
      if At(KEY, s, i) {
        KeyChar(KEY, s, i, i + |KEY| - 1);
        KeyChar(KEY, s, i, i + |KEY| - 2);
        KeyChar(KEY, s, i, i + |KEY| - 3);
        assert false;
      }
    }
  }

  /** The names are words. */
  predicate Word(s: string) {
    |s| >= 2 && forall k :: 0 <= k < |s| ==> s[k] == '_' || 'a' <= s[k] <= 'z'
  }

  lemma {:induction false} FirstNamesAreWords(k: nat)
    requires k < 4
    ensures Word(NameOf(k))
  {
  }

  lemma {:induction false} NamesAreWords(k: nat)
    ensures Word(NameOf(k))
  {
    if k < 4 { FirstNamesAreWords(k); }
  }

  lemma {:induction false} NameIsNotTheKey(k: nat)
    requires k < 8
    ensures '=' !in NameOf(k) && !KeyName(KEY, NameOf(k))
  {
    NamesAreWords(k);
    NotTheKey(NameOf(k));
  }

  /** None of the values a manifest is compared with holds the key. */
  ghost predicate SafeToStamp(a: Artifact) {
    !Keyed(KEY, a.id) && !Keyed(KEY, a.digest) && !Keyed(KEY, a.format) && !Keyed(KEY, a.entrypoint)
  }

  lemma {:induction false} FieldKept(body: string, stamp: Numeral, k: nat, v: string)
    requires Keyed(KEY, body) && k < 8 && !Keyed(KEY, v)
    ensures Field(TouchLastUsed(body, stamp).value, NameOf(k)) == v <==> Field(body, NameOf(k)) == v
  {
    NumberIsOneLine(stamp);
    var m := TouchIsOneLine(KEY, body, stamp);
    NameIsNotTheKey(k);
    StampKeepsField(KEY, Lines(body), Lines(TouchLastUsed(body, stamp).value), m, stamp, NameOf(k), v);
  }

  /** Whatever text the manifest holds, stamping it then does not change whether it matches. */
  lemma {:induction false} StampKeepsMatch(body: string, stamp: Numeral, a: Artifact)
    requires SafeToStamp(a) && TouchLastUsed(body, stamp).Some?
    ensures Matches(TouchLastUsed(body, stamp).value, a) <==> Matches(body, a)
  {
    TooShortForKey(KEY, "1");
    FieldKept(body, stamp, 0, "1");
    FieldKept(body, stamp, 1, a.id);
    FieldKept(body, stamp, 3, a.digest);
    FieldKept(body, stamp, 4, a.format);
    FieldKept(body, stamp, 5, a.entrypoint);
  }

  // ---------------------------------------------------------------------------------------------
  // A manifest as it is written
  // ---------------------------------------------------------------------------------------------

  /** They are told apart by their lengths and first letters. */
  lemma {:induction false} NamesDiffer(j: nat, k: nat)
    requires j < k < 9
    ensures NameOf(j) != NameOf(k)
  {
    var lengths, letters := [16, 11, 6, 6, 14, 10, 10, 12, 9], "masdpesil";
    NameShape(j);
    NameShape(k);
    assert lengths[j] != lengths[k] || letters[j] != letters[k];
  }

  lemma {:induction false} NameShape(k: nat)
    requires k < 9
    ensures |NameOf(k)| == [16, 11, 6, 6, 14, 10, 10, 12, 9][k] && NameOf(k)[0] == "masdpesil"[k]
  {
  }

  lemma {:induction false} EntryNamed(source: string, a: Artifact, size: Numeral, now: Numeral, k: nat)
    requires k < 9
    ensures Entries(source, a, size, now)[k].name == NameOf(k)
  {
  }

  lemma {:induction false} ValueIsOneLine(source: string, a: Artifact, size: Numeral, now: Numeral, k: nat)
    requires k < 9
    ensures '\n' !in Entries(source, a, size, now)[k].value
  {
    NumberIsOneLine(size);
    NumberIsOneLine(now);
  }

  lemma {:induction false} EntriesArePlain(source: string, a: Artifact, size: Numeral, now: Numeral)
    ensures forall k :: 0 <= k < 9 ==> Plain(Entries(source, a, size, now)[k])
  {
    forall k: nat | k < 9 ensures Plain(Entries(source, a, size, now)[k]) {
      EntryNamed(source, a, size, now, k);
      NamesAreWords(k);
      ValueIsOneLine(source, a, size, now, k);
    }
  }

  lemma {:induction false} EntriesAreDistinct(es: seq<Entry>)
    requires |es| == 9 && forall k :: 0 <= k < 9 ==> es[k].name == NameOf(k)
    ensures DistinctNames(es)
  {
    forall k: nat | k < 9 ensures '=' !in es[k].name { NamesAreWords(k); }
    forall j: nat, k: nat | j < k < 9 ensures es[j].name != es[k].name { NamesDiffer(j, k); }
  }

  lemma {:induction false} MatchesEntries(es: seq<Entry>, body: string, a: Artifact)
    requires DistinctNames(es) && Lines(body) == LinesOf(es) && |es| == 9 && es[0] == Entry("manifest_version", "1")
    requires es[1].name == "artifact_id" && es[3].name == "digest" && es[4].name == "package_format" && es[5].name == "entrypoint"
    ensures Matches(body, a) <==>
      es[1].value == a.id && es[3].value == a.digest && es[4].value == a.format && es[5].value == a.entrypoint
  {
    FieldOfLines(es, body, 0);
    FieldOfLines(es, body, 1);
    FieldOfLines(es, body, 3);
    FieldOfLines(es, body, 4);
    FieldOfLines(es, body, 5);
  }

  predicate OneLiner(s: string) {
    '\n' !in s && '\r' !in s
  }

  predicate OneLiners(a: Artifact) {
    OneLiner(a.id) && OneLiner(a.digest) && OneLiner(a.format) && OneLiner(a.entrypoint)
  }

  /** The fields have their names. */
  predicate Proper(es: seq<Entry>) {
    |es| == 9 && forall k :: 0 <= k < 9 ==> es[k].name == NameOf(k)
  }

  lemma {:induction false} ProperIsKeyLast(es: seq<Entry>)
    requires Proper(es)
    ensures KeyLast(KEY, es)
  {
    forall k: nat | k < 8 ensures '=' !in es[k].name && !KeyName(KEY, es[k].name) { NameIsNotTheKey(k); }
  }

  lemma {:induction false} WrittenLines(source: string, a: Artifact, size: Numeral, now: Numeral)
    ensures var es := Entries(source, a, size, now);
      Proper(es) && DistinctNames(es) && Lines(ManifestBody(source, a, size, now)) == LinesOf(es)
  {
    var es := Entries(source, a, size, now);
    forall k: nat | k < 9 ensures es[k].name == NameOf(k) { EntryNamed(source, a, size, now, k); }
    EntriesArePlain(source, a, size, now);
    EntriesAreDistinct(es);
    LinesOfRender(es);
  }

  /** A manifest just written matches exactly if none of the values holds a line break: those are dropped. */
  lemma {:induction false} WrittenMatchesIff(source: string, a: Artifact, size: Numeral, now: Numeral)
    ensures Matches(ManifestBody(source, a, size, now), a) <==> OneLiners(a)
  {
    WrittenLines(source, a, size, now);
    MatchesEntries(Entries(source, a, size, now), ManifestBody(source, a, size, now), a);
  }

  lemma {:induction false} WrittenIsKeyed(source: string, a: Artifact, size: Numeral, now: Numeral)
    ensures Keyed(KEY, ManifestBody(source, a, size, now))
  {
    WrittenLines(source, a, size, now);
    ProperIsKeyLast(Entries(source, a, size, now));
    TouchEntries(KEY, Entries(source, a, size, now), ManifestBody(source, a, size, now), "0");
  }

  /** What a written manifest says after any number of stamps. */
  lemma {:induction false} TouchWritten(source: string, a: Artifact, size: Numeral, now: Numeral, stamps: seq<Numeral>)
    requires stamps != []
    ensures var es := StampedEntries(KEY, Entries(source, a, size, now), stamps[|stamps| - 1]);
      DistinctNames(es) && Lines(TouchAll(KEY, ManifestBody(source, a, size, now), stamps)) == LinesOf(es)
  {
    var es, last := Entries(source, a, size, now), stamps[|stamps| - 1];
    WrittenLines(source, a, size, now);
    ProperIsKeyLast(Entries(source, a, size, now));
    TouchEntries(KEY, es, ManifestBody(source, a, size, now), last);
    LastStampShows(KEY, ManifestBody(source, a, size, now), stamps);
    StampedDistinct(KEY, es, last);
  }

  /** The fields a manifest is compared in, the version aside. */
  predicate Compared(k: nat) {
    k == 1 || k == 3 || k == 4 || k == 5
  }

  lemma {:induction false} StampedValues(es: seq<Entry>, stamp: string, k: nat)
    requires Proper(es) && es[0].value == "1" && k < 9
    ensures StampedEntries(KEY, es, stamp)[0] == es[0] && StampedEntries(KEY, es, stamp)[k].name == es[k].name
    ensures StampedEntries(KEY, es, stamp)[k].value == es[k].value <==>
      k != Carrier(KEY, es, 0) || (if k == 8 then stamp == es[8].value else Stamped(KEY, es[k].value, stamp) == es[k].value)
  {
    TooShortForKey(KEY, "1");
  }

  lemma {:induction false} StampedIsOneLiner(v: string, stamp: Numeral)
    requires OneLiner(v) && Keyed(KEY, v)
    ensures OneLiner(Stamped(KEY, v, stamp))
  {
  }

  /** A field's value after stamping is what was given exactly if that has no line break and the stamp left it alone. */
  lemma {:induction false} ValueStays(es: seq<Entry>, stamp: Numeral, k: nat, given: string)
    requires Proper(es) && es[0].value == "1" && k < 8 && es[k].value == CleanMeta(given)
    ensures StampedEntries(KEY, es, stamp)[k].value == given <==>
      OneLiner(given) && (k == Carrier(KEY, es, 0) ==> Stamped(KEY, es[k].value, stamp) == es[k].value)
  {
    StampedValues(es, stamp, k);
    if k == Carrier(KEY, es, 0) { StampedIsOneLiner(es[k].value, stamp); }
  }

  lemma {:induction false} MatchesStamped(es: seq<Entry>, body: string, a: Artifact, stamp: Numeral)
    requires Proper(es) && es[0].value == "1" && es[1].value == CleanMeta(a.id) && es[3].value == CleanMeta(a.digest)
    requires es[4].value == CleanMeta(a.format) && es[5].value == CleanMeta(a.entrypoint)
    requires DistinctNames(StampedEntries(KEY, es, stamp)) && Lines(body) == LinesOf(StampedEntries(KEY, es, stamp))
    ensures var c := Carrier(KEY, es, 0);
      Matches(body, a) <==> OneLiners(a) && (Compared(c) ==> Stamped(KEY, es[c].value, stamp) == es[c].value)
  {
    var after := StampedEntries(KEY, es, stamp);
    forall k: nat | k < 9 ensures after[k].name == NameOf(k) { StampedValues(es, stamp, k); }
    StampedValues(es, stamp, 0);
    MatchesEntries(after, body, a);
    ValueStays(es, stamp, 1, a.id);
    ValueStays(es, stamp, 3, a.digest);
    ValueStays(es, stamp, 4, a.format);
    ValueStays(es, stamp, 5, a.entrypoint);
  }

  /**
   However often it was stamped, a written manifest matches exactly if no compared value has a line
   break and the first field that holds the key is not a compared one, or holds the last stamp already.
   */
  lemma {:induction false} StampedMatchesIff(source: string, a: Artifact, size: Numeral, now: Numeral, stamps: seq<Numeral>)
    requires stamps != []
    ensures var es := Entries(source, a, size, now); var c := Carrier(KEY, es, 0);
      Matches(TouchAll(KEY, ManifestBody(source, a, size, now), stamps), a) <==>
      OneLiners(a) && (Compared(c) ==> Stamped(KEY, es[c].value, stamps[|stamps| - 1]) == es[c].value)
  {
    var es, last := Entries(source, a, size, now), stamps[|stamps| - 1];
    WrittenLines(source, a, size, now);
    TouchWritten(source, a, size, now, stamps);
    MatchesStamped(es, TouchAll(KEY, ManifestBody(source, a, size, now), stamps), a, last);
  }

  /** The last stamp reaches the last_used field exactly if no value before it holds the key. */
  lemma {:induction false} StampMovesIff(source: string, a: Artifact, size: Numeral, now: Numeral, stamps: seq<Numeral>)
    requires stamps != [] && stamps[|stamps| - 1] != now
    ensures var es := Entries(source, a, size, now);
      Field(TouchAll(KEY, ManifestBody(source, a, size, now), stamps), "last_used") == stamps[|stamps| - 1] <==>
      forall k :: 0 <= k < 8 ==> !Keyed(KEY, es[k].value)
  {
    var es, last := Entries(source, a, size, now), stamps[|stamps| - 1];
    WrittenLines(source, a, size, now);
    TouchWritten(source, a, size, now, stamps);
    var after := StampedEntries(KEY, es, last);
    StampedValues(es, last, 8);
    LookupEntry(after, 8);
    assert after[8].value == if Carrier(KEY, es, 0) == 8 then last else now;
  }

  // ---------------------------------------------------------------------------------------------
  // Exactly when a manifest never stops matching
  // ---------------------------------------------------------------------------------------------

  /** Values without line breaks, none of them with the key. */
  ghost predicate Safe(a: Artifact) {
    SafeToStamp(a) && OneLiners(a)
  }

  /** The manifest of a safe artifact matches when it is written, and however often it is stamped. */
  lemma {:induction false} MatchesHoweverStamped(source: string, a: Artifact, size: Numeral, now: Numeral,
                                                 stamps: seq<Numeral>)
    requires Safe(a)
    ensures Matches(TouchAll(KEY, ManifestBody(source, a, size, now), stamps), a)
  {
    WrittenMatchesIff(source, a, size, now);
    WrittenIsKeyed(source, a, size, now);
    if stamps != [] {
      LastStampShows(KEY, ManifestBody(source, a, size, now), stamps);
      StampKeepsMatch(ManifestBody(source, a, size, now), stamps[|stamps| - 1], a);
    }
  }

  /** Whatever source, size and times are written, and however often it is stamped, the manifest matches. */
  ghost predicate AlwaysMatches(a: Artifact) {
    forall source, size: Numeral, now: Numeral, stamps: seq<Numeral> ::
      Matches(TouchAll(KEY, ManifestBody(source, a, size, now), stamps), a)
  }

  lemma {:induction false} CarrierIsCompared(es: seq<Entry>, k: nat)
    requires |es| == 9 && Compared(k) && Keyed(KEY, es[k].value) && !Keyed(KEY, es[0].value) && !Keyed(KEY, es[2].value)
    ensures Compared(Carrier(KEY, es, 0))
  {
  }

  /** An artifact that is not safe has a manifest that does not match, at the latest once stamped. */
  lemma {:induction false} UnsafeSpoils(a: Artifact) returns (stamp: Numeral)
    requires !Safe(a)
    ensures !Matches(TouchAll(KEY, ManifestBody("", a, "0", "0"), [stamp]), a)
  {
    stamp := "0";
    if OneLiners(a) { stamp := UnsafeStamp(a, Entries("", a, "0", "0")); }
    StampedMatchesIff("", a, "0", "0", [stamp]);
  }

  lemma {:induction false} UnsafeStamp(a: Artifact, es: seq<Entry>) returns (stamp: Numeral)
    requires !SafeToStamp(a) && |es| == 9 && es[0].value == "1" && es[2].value == ""
    requires es[1].value == a.id && es[3].value == a.digest && es[4].value == a.format && es[5].value == a.entrypoint
    ensures var c := Carrier(KEY, es, 0); Compared(c) && Stamped(KEY, es[c].value, stamp) != es[c].value
  {
    TooShortForKey(KEY, "1");
    TooShortForKey(KEY, "");
    var k := if Keyed(KEY, a.id) then 1 else if Keyed(KEY, a.digest) then 3 else if Keyed(KEY, a.format) then 4 else 5;
    CarrierIsCompared(es, k);
    stamp := SomeStampShows(KEY, es[Carrier(KEY, es, 0)].value);
  }

  /** A manifest always matches exactly if the artifact is safe. */
  lemma {:induction false} AlwaysMatchesIffSafe(a: Artifact)
    ensures AlwaysMatches(a) <==> Safe(a)
  {
    if Safe(a) {
      forall source, size: Numeral, now: Numeral, stamps: seq<Numeral>
        ensures Matches(TouchAll(KEY, ManifestBody(source, a, size, now), stamps), a)
      {
        MatchesHoweverStamped(source, a, size, now, stamps);
      }
    } else {
      var stamp := UnsafeSpoils(a);
    }
  }

  /** 64 hexadecimal digits. */
  predicate IsHash(s: string) {
    |s| == 64 && forall k :: 0 <= k < |s| ==> '0' <= s[k] <= '9' || 'a' <= s[k] <= 'f'
  }

  lemma {:induction false} HashIsNotTheKey(s: string)
    requires IsHash(s)
    ensures !Keyed(KEY, s) && OneLiner(s)
  {
    forall i: nat ensures !At(KEY, s, i) {
      if At(KEY, s, i) { KeyChar(KEY, s, i, i + |KEY| - 1); }
    }
  }

  lemma {:induction false} KeyThenSuffix(suffix: string, stamp: string)
    requires OneLiner(suffix) && suffix != stamp
    ensures OneLiner(KEY + suffix) && Keyed(KEY, KEY + suffix) && Stamped(KEY, KEY + suffix, stamp) != KEY + suffix
  {
    var e := KEY + suffix;
    assert e[..|KEY|] == KEY && e[|KEY|..] == suffix && At(KEY, e, 0);
    FindsKeyAt(KEY, e, 0);
    assert Stamped(KEY, e, stamp)[|KEY|..] == stamp;
  }

  /**
   An entrypoint of the key and something else: its manifest matches when written and, unless that is
   the last stamp, not once stamped.
   */
  lemma {:induction false} StampSpoilsManifest(source: string, id: string, digest: string, format: string, suffix: string,
                                               size: Numeral, now: Numeral, stamps: seq<Numeral>)
    requires OneLiner(id) && OneLiner(digest) && OneLiner(format) && OneLiner(suffix)
    requires !Keyed(KEY, CleanMeta(source)) && !Keyed(KEY, id) && !Keyed(KEY, digest) && !Keyed(KEY, format)
    requires stamps != [] && suffix != stamps[|stamps| - 1]
    ensures var a := Artifact(id, digest, format, KEY + suffix); var body := ManifestBody(source, a, size, now);
      Matches(body, a) && !Matches(TouchAll(KEY, body, stamps), a)
  {
    var a := Artifact(id, digest, format, KEY + suffix);
    var es := Entries(source, a, size, now);
    KeyThenSuffix(suffix, stamps[|stamps| - 1]);
    TooShortForKey(KEY, "1");
    CarrierIs(KEY, es, 5);
    WrittenMatchesIff(source, a, size, now);
    StampedMatchesIff(source, a, size, now, stamps);
  }

  /** One such artifact: its id and digest as a hash prints them, its entrypoint named after the key. */
  lemma {:induction false} SpoiltArtifact(source: string, size: Numeral, now: Numeral) returns (a: Artifact)
    requires !Keyed(KEY, CleanMeta(source))
    ensures IsHash(a.id) && IsHash(a.digest) && a.format == "zip" && a.entrypoint == KEY + "worker"
    ensures var body := ManifestBody(source, a, size, now); Matches(body, a) && !Matches(TouchAll(KEY, body, ["6"]), a)
  {
    var hash := seq(64, _ => '0');
    a := Artifact(hash, hash, "zip", KEY + "worker");
    HashIsNotTheKey(hash);
    TooShortForKey(KEY, "zip");
    assert "worker"[0] != "6"[0];
    StampSpoilsManifest(source, hash, hash, "zip", "worker", size, now, ["6"]);
  }
}
