/**
 The cache identity of a set of secrets (src/vgi_cache_identity.cpp): a canonical text in which every
 component is length-prefixed and every map is prefixed with its size, hashed into a fingerprint.
 The text determines the secrets.
 */
module CacheIdentity {
  import opened Basics
  import opened Options

  /** A secret value as the encoding sees it: the name of its type, and its text unless it is null. */
  datatype Cell = Cell(typeName: string, text: Option<string>)

  type Fields = map<string, Cell>

  type Secrets = map<string, Fields>

  // ---------------------------------------------------------------------------------------------
  // Keys in order, as std::map iterates
  // ---------------------------------------------------------------------------------------------

  predicate Below(a: string, b: string) {
    if a == [] then true
    else if b == [] then false
    else a[0] < b[0] || (a[0] == b[0] && Below(a[1..], b[1..]))
  }

  lemma {:induction false} BelowTotal(a: string, b: string)
    ensures Below(a, b) || Below(b, a)
    ensures Below(a, b) && Below(b, a) ==> a == b
  {
    if a != [] && b != [] && a[0] == b[0] {
      BelowTotal(a[1..], b[1..]);
      assert a == [a[0]] + a[1..] && b == [b[0]] + b[1..];
    }
  }

  lemma {:induction false} BelowTransitive(a: string, b: string, c: string)
    requires Below(a, b) && Below(b, c)
    ensures Below(a, c)
  {
    if a != [] && a[0] == b[0] == c[0] { BelowTransitive(a[1..], b[1..], c[1..]); }
  }

  predicate Least(keys: set<string>, k: string) {
    k in keys && forall x :: x in keys ==> Below(k, x)
  }

  lemma {:induction false} LeastExists(keys: set<string>)
    requires keys != {}
    ensures exists k :: Least(keys, k)
  {
    var x :| x in keys;
    BelowTotal(x, x);
    if keys == {x} {
      assert Least(keys, x);
    } else {
      LeastExists(keys - {x});
      var y :| Least(keys - {x}, y);
      BelowTotal(x, y);
      if Below(x, y) {
        forall z | z in keys && z != x ensures Below(x, z) { BelowTransitive(x, y, z); }
        assert Least(keys, x);
      } else {
        assert Least(keys, y);
      }
    }
  }

  lemma {:induction false} LeastUnique(keys: set<string>, a: string, b: string)
    requires Least(keys, a) && Least(keys, b)
    ensures a == b
  {
    BelowTotal(a, b);
  }

  /** The keys of a map in the order std::map iterates over them. */
  ghost function InOrder(keys: set<string>): (r: seq<string>)
    ensures |r| == |keys| && forall k :: k in keys <==> k in r
  {
    if keys == {} then []
    else
      LeastExists(keys);
      var k :| Least(keys, k);
      [k] + InOrder(keys - {k})
  }

  lemma {:induction false} InOrderFrom(keys: set<string>, k: string)
    requires Least(keys, k)
    ensures InOrder(keys) == [k] + InOrder(keys - {k})
  {
    LeastUnique(keys, k, InOrder(keys)[0]);
  }

  // ---------------------------------------------------------------------------------------------
  // The encoding
  // ---------------------------------------------------------------------------------------------

  /** std::to_string of a size. */
  function Decimal(n: nat): (r: string)
    ensures r != [] && forall i :: 0 <= i < |r| ==> '0' <= r[i] <= '9'
  {
    if n < 10 then [Digit(n)] else Decimal(n / 10) + [Digit(n % 10)]
  }

  function Digit(n: nat): char
    requires n < 10
  {
    '0' + n as char
  }

  function Number(s: string): nat
    requires forall i :: 0 <= i < |s| ==> '0' <= s[i] <= '9'
  {
    if s == [] then 0 else Number(s[..|s| - 1]) * 10 + (s[|s| - 1] - '0') as nat
  }

  lemma {:induction false} NumberOfDecimal(n: nat)
    ensures Number(Decimal(n)) == n
  {
    if n >= 10 {
      NumberOfDecimal(n / 10);
      assert Decimal(n)[..|Decimal(n)| - 1] == Decimal(n / 10);
    } else {
      assert Decimal(n)[..0] == "";
    }
  }

  /** One component: its length, a colon, itself. */
  function Item(s: string): string {
    Decimal(|s|) + ":" + s
  }

  function CellItem(c: Cell): string {
    Item(if c.text.None? then "N" else "V" + c.text.value)
  }

  function FieldText(field: string, c: Cell): string {
    Item(field) + Item(c.typeName) + CellItem(c)
  }

  function FieldsText(keys: seq<string>, fields: Fields): string
    requires forall k :: k in keys ==> k in fields
  {
    if keys == [] then "" else FieldText(keys[0], fields[keys[0]]) + FieldsText(keys[1..], fields)
  }

  ghost function SecretText(name: string, fields: Fields): string {
    Item(name) + Item(Decimal(|fields|)) + FieldsText(InOrder(fields.Keys), fields)
  }

  ghost function SecretsText(keys: seq<string>, secrets: Secrets): string
    requires forall k :: k in keys ==> k in secrets
  {
    if keys == [] then "" else SecretText(keys[0], secrets[keys[0]]) + SecretsText(keys[1..], secrets)
  }

  ghost function Canonical(secrets: Secrets): string {
    Item(Decimal(|secrets|)) + SecretsText(InOrder(secrets.Keys), secrets)
  }

  // ---------------------------------------------------------------------------------------------
  // Reading it back
  // ---------------------------------------------------------------------------------------------

  predicate NoColon(s: string) {
    forall i :: 0 <= i < |s| ==> s[i] != ':'
  }

  lemma {:induction false} FirstColon(a: string, x: string, b: string, y: string)
    requires NoColon(a) && NoColon(b) && a + ":" + x == b + ":" + y
    ensures a == b && x == y
  {
    var s, t := a + ":" + x, b + ":" + y;
    assert s[|a|] == ':' && t[|b|] == ':';
    assert |a| == |b|;
    assert a == s[..|a|] && b == t[..|b|];
    assert x == s[|a| + 1..] && y == t[|b| + 1..];
  }

  /** A component is read back from the front of any text that starts with it. */
  lemma {:induction false} ItemReads(a: string, x: string, b: string, y: string)
    requires Item(a) + x == Item(b) + y
    ensures a == b && x == y
  {
    assert Decimal(|a|) + ":" + (a + x) == Item(a) + x == Item(b) + y == Decimal(|b|) + ":" + (b + y);
    FirstColon(Decimal(|a|), a + x, Decimal(|b|), b + y);
    NumberOfDecimal(|a|);
    NumberOfDecimal(|b|);
    assert a == (a + x)[..|a|] && b == (b + y)[..|b|];
    assert x == (a + x)[|a|..] && y == (b + y)[|b|..];
  }

  lemma {:induction false} DecimalReads(m: nat, x: string, n: nat, y: string)
    requires Item(Decimal(m)) + x == Item(Decimal(n)) + y
    ensures m == n && x == y
  {
    ItemReads(Decimal(m), x, Decimal(n), y);
    NumberOfDecimal(m);
    NumberOfDecimal(n);
  }

  lemma {:induction false} CellReads(c: Cell, x: string, d: Cell, y: string)
    requires c.typeName == d.typeName && CellItem(c) + x == CellItem(d) + y
    ensures c == d && x == y
  {
    var s := if c.text.None? then "N" else "V" + c.text.value;
    var t := if d.text.None? then "N" else "V" + d.text.value;
    ItemReads(s, x, t, y);
    assert s[0] == t[0] && s[1..] == t[1..];
    assert c.text.Some? ==> s[1..] == c.text.value;
    assert d.text.Some? ==> t[1..] == d.text.value;
  }

  lemma {:induction false} FieldReads(f: string, c: Cell, x: string, g: string, d: Cell, y: string)
    requires FieldText(f, c) + x == FieldText(g, d) + y
    ensures f == g && c == d && x == y
  {
    var cx, dy := CellItem(c) + x, CellItem(d) + y;
    assert FieldText(f, c) + x == Item(f) + (Item(c.typeName) + cx);
    assert FieldText(g, d) + y == Item(g) + (Item(d.typeName) + dy);
    ItemReads(f, Item(c.typeName) + cx, g, Item(d.typeName) + dy);
    ItemReads(c.typeName, cx, d.typeName, dy);
    CellReads(c, x, d, y);
  }

  lemma {:induction false} ThreeParts(a: string, b: string, c: string, x: string)
    ensures (a + b + c) + x == a + (b + (c + x))
    ensures ((x + a) + b) + c == x + (a + b + c)
  {
  }

  lemma {:induction false} SameMap<T>(a: map<string, T>, b: map<string, T>)
    requires InOrder(a.Keys) == InOrder(b.Keys) && forall k :: k in InOrder(a.Keys) ==> a[k] == b[k]
    ensures a == b
  {
    assert a.Keys == b.Keys by {
      forall k ensures k in a.Keys <==> k in b.Keys { assert k in a.Keys <==> k in InOrder(a.Keys); }
    }
  }

  lemma {:induction false} ConsKeys(k: seq<string>)
    requires k != []
    ensures k == [k[0]] + k[1..] && forall f :: f in k ==> f == k[0] || f in k[1..]
  {
  }

  lemma {:induction false} FieldsRead(j: seq<string>, a: Fields, x: string, k: seq<string>, b: Fields, y: string)
    requires |j| == |k| && (forall f :: f in j ==> f in a) && (forall f :: f in k ==> f in b)
    requires FieldsText(j, a) + x == FieldsText(k, b) + y
    ensures j == k && x == y && forall f :: f in j ==> a[f] == b[f]
    decreases |j|
  {
    if j == [] {
      assert x == FieldsText(j, a) + x && y == FieldsText(k, b) + y;
    } else {
      Associates(FieldText(j[0], a[j[0]]), FieldsText(j[1..], a), x);
      Associates(FieldText(k[0], b[k[0]]), FieldsText(k[1..], b), y);
      FieldReads(j[0], a[j[0]], FieldsText(j[1..], a) + x, k[0], b[k[0]], FieldsText(k[1..], b) + y);
      FieldsRead(j[1..], a, x, k[1..], b, y);
      ConsKeys(j);
      ConsKeys(k);
    }
  }

  lemma {:induction false} SecretReads(m: string, a: Fields, x: string, n: string, b: Fields, y: string)
    requires SecretText(m, a) + x == SecretText(n, b) + y
    ensures m == n && a == b && x == y
  {
    var j, k := InOrder(a.Keys), InOrder(b.Keys);
    var aRest, bRest := FieldsText(j, a) + x, FieldsText(k, b) + y;
    ThreeParts(Item(m), Item(Decimal(|a|)), FieldsText(j, a), x);
    ThreeParts(Item(n), Item(Decimal(|b|)), FieldsText(k, b), y);
    ItemReads(m, Item(Decimal(|a|)) + aRest, n, Item(Decimal(|b|)) + bRest);
    DecimalReads(|a|, aRest, |b|, bRest);
    FieldsRead(j, a, x, k, b, y);
    SameMap(a, b);
  }

  lemma {:induction false} SecretsRead(j: seq<string>, a: Secrets, k: seq<string>, b: Secrets)
    requires |j| == |k| && (forall n :: n in j ==> n in a) && (forall n :: n in k ==> n in b)
    requires SecretsText(j, a) == SecretsText(k, b)
    ensures j == k && forall n :: n in j ==> a[n] == b[n]
    decreases |j|
  {
    if j != [] {
      SecretReads(j[0], a[j[0]], SecretsText(j[1..], a), k[0], b[k[0]], SecretsText(k[1..], b));
      SecretsRead(j[1..], a, k[1..], b);
      ConsKeys(j);
      ConsKeys(k);
    }
  }

  /** No two different sets of secrets have the same canonical text. */
  lemma {:induction false} CanonicalInjective(a: Secrets, b: Secrets)
    requires Canonical(a) == Canonical(b)
    ensures a == b
  {
    DecimalReads(|a|, SecretsText(InOrder(a.Keys), a), |b|, SecretsText(InOrder(b.Keys), b));
    SecretsRead(InOrder(a.Keys), a, InOrder(b.Keys), b);
    SameMap(a, b);
  }

  // ---------------------------------------------------------------------------------------------
  // Computing it
  // ---------------------------------------------------------------------------------------------

  /** The fields of one secret appended in key order, as the inner loop does. */
  method AddFields(canonical: string, fields: Fields) returns (r: string)
    ensures r == canonical + FieldsText(InOrder(fields.Keys), fields)
  {
    r := canonical;
    var rest := fields.Keys;
    while rest != {}
      invariant rest <= fields.Keys
      invariant r + FieldsText(InOrder(rest), fields) == canonical + FieldsText(InOrder(fields.Keys), fields)
      decreases |rest|
    {
      LeastExists(rest);
      var field :| Least(rest, field);
      InOrderFrom(rest, field);
      Associates(r, FieldText(field, fields[field]), FieldsText(InOrder(rest - {field}), fields));
      r := r + FieldText(field, fields[field]);
      rest := rest - {field};
    }
  }

  /** The canonical text, built by the two nested loops. */
  method BuildCanonical(secrets: Secrets) returns (r: string)
    ensures r == Canonical(secrets) && r != ""
  {
    r := Item(Decimal(|secrets|));
    var rest := secrets.Keys;
    while rest != {}
      invariant rest <= secrets.Keys && r != ""
      invariant r + SecretsText(InOrder(rest), secrets) == Canonical(secrets)
      decreases |rest|
    {
      LeastExists(rest);
      var name :| Least(rest, name);
      InOrderFrom(rest, name);
      Associates(r, SecretText(name, secrets[name]), SecretsText(InOrder(rest - {name}), secrets));
      ghost var before, fields := r, secrets[name];
      r := r + Item(name) + Item(Decimal(|secrets[name]|));
      r := AddFields(r, secrets[name]);
      ThreeParts(Item(name), Item(Decimal(|fields|)), FieldsText(InOrder(fields.Keys), fields), before);
      rest := rest - {name};
    }
  }

  // ---------------------------------------------------------------------------------------------
  // Fingerprints
  // ---------------------------------------------------------------------------------------------

  const UNIT_SEPARATOR := '\U{001f}'

  function Material(kind: string, credential: string): string {
    "vgi-cache-credential:v2" + [UNIT_SEPARATOR] + kind + [UNIT_SEPARATOR] + credential
  }

  /** `sha` is SHA-256 in hexadecimal; it is empty when no digest could be computed. */
  function CredentialFingerprint(sha: string -> string, kind: string, credential: string): string {
    if kind == "" || credential == "" then ""
    else
      var digest := sha(Material(kind, credential));
      if digest == "" then "" else kind + ":" + digest
  }

  ghost function SecretFingerprint(sha: string -> string, secrets: Secrets): string {
    CredentialFingerprint(sha, "secrets", Canonical(secrets))
  }

  lemma {:induction false} MaterialInjective(kind: string, a: string, b: string)
    requires Material(kind, a) == Material(kind, b)
    ensures a == b
  {
    var prefix := "vgi-cache-credential:v2" + [UNIT_SEPARATOR] + kind + [UNIT_SEPARATOR];
    assert Material(kind, a) == prefix + a && Material(kind, b) == prefix + b;
    assert a == (prefix + a)[|prefix|..] && b == (prefix + b)[|prefix|..];
  }

  /** The material hashed for secret set `a`. */
  ghost function SecretMaterial(a: Secrets): string {
    Material("secrets", Canonical(a))
  }

  /**
   Two secret sets share a fingerprint exactly if they are equal or their materials, which differ
   whenever the sets do, collide under the hash.
   */
  lemma {:induction false} FingerprintIdentifies(sha: string -> string, a: Secrets, b: Secrets)
    requires sha(SecretMaterial(a)) != "" && sha(SecretMaterial(b)) != ""
    ensures SecretMaterial(a) == SecretMaterial(b) <==> a == b
    ensures SecretFingerprint(sha, a) != ""
    ensures SecretFingerprint(sha, a) == SecretFingerprint(sha, b) <==> sha(SecretMaterial(a)) == sha(SecretMaterial(b))
  {
    assert Canonical(a) != "" && Canonical(b) != "";
    var s, t := SecretFingerprint(sha, a), SecretFingerprint(sha, b);
    assert s == "secrets:" + sha(SecretMaterial(a)) && t == "secrets:" + sha(SecretMaterial(b));
    assert s[8..] == sha(SecretMaterial(a)) && t[8..] == sha(SecretMaterial(b));
    if SecretMaterial(a) == SecretMaterial(b) {
      MaterialInjective("secrets", Canonical(a), Canonical(b));
      CanonicalInjective(a, b);
    }
  }

  method ComputeSecretCacheFingerprint(sha: string -> string, secrets: Secrets) returns (r: string)
    ensures r == SecretFingerprint(sha, secrets)
  {
    var canonical := BuildCanonical(secrets);
    r := CredentialFingerprint(sha, "secrets", canonical);
  }
}
