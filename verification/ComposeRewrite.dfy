/** The rewriting by which the deployment policy checks a production Compose
    model with the rules of staging: `normalize` inside
    `_production_model_as_staging`, and the `reject_staging_reference` walk that
    precedes it. */
module ComposeRewrite {
  import opened Outcomes

  /** A parsed Compose model. `Other` is a number, a boolean or null. */
  datatype Json = Object(members: map<string, Json>) | Array(items: seq<Json>) | Text(text: string) | Other(code: int)

  predicate Contains(text: string, part: string) {
    exists i :: 0 <= i <= |text| && part <= text[i..]
  }

  // ------------------------------------------------------------------
  // Texts.

  predicate ForbiddenText(text: string) {
    || text == "staging"
    || Contains(text, "/opt/yolpol/staging")
    || Contains(text, "yolpol-staging_")
    || Contains(text, "yolpol-staging-")
    || Contains(text, "staging.yolpol.com")
  }

  function RewriteText(text: string): string {
    if "/opt/yolpol/production" <= text then "/opt/yolpol/staging" + text[22..]
    else if "yolpol-production_" <= text then "yolpol-staging_" + text[18..]
    else if text == "yolpol-production-ingress" then "yolpol-staging-ingress"
    else if text == "production-web" then "staging-web"
    else if text == "https://yolpol.com" then "https://staging.yolpol.com"
    else text
  }

  /** The rules read from right to left, except for the pair that the walk does
      not forbid. */
  function RestoreText(text: string): string {
    if "/opt/yolpol/staging" <= text then "/opt/yolpol/production" + text[19..]
    else if "yolpol-staging_" <= text then "yolpol-production_" + text[15..]
    else if text == "yolpol-staging-ingress" then "yolpol-production-ingress"
    else if text == "https://staging.yolpol.com" then "https://yolpol.com"
    else text
  }

  /** The one confusion: both ingress aliases count as the staging one. */
  function MergeAlias(text: string): string {
    if text == "production-web" then "staging-web" else text
  }

  function SwapAlias(text: string): string {
    if text == "production-web" then "staging-web" else if text == "staging-web" then "production-web" else text
  }

  lemma PartAt(text: string, i: nat, part: string)
    requires i <= |text| && part <= text[i..]
    ensures Contains(text, part)
  {
  }

  lemma AcceptedStays(text: string)
    ensures ForbiddenText(text) || RestoreText(text) == text
  {
    assert text[0..] == text;
    if "/opt/yolpol/staging" <= text {
      PartAt(text, 0, "/opt/yolpol/staging");
    } else if "yolpol-staging_" <= text {
      PartAt(text, 0, "yolpol-staging_");
    } else if text == "yolpol-staging-ingress" {
      PartAt(text, 0, "yolpol-staging-");
    } else if text == "https://staging.yolpol.com" {
      assert text[8..] == "staging.yolpol.com";
      PartAt(text, 8, "staging.yolpol.com");
    }
  }

  lemma RestoreRewritten(text: string)
    requires !ForbiddenText(text)
    ensures RestoreText(RewriteText(text)) == MergeAlias(text)
  {
    AcceptedStays(text);
    hide ForbiddenText, Contains;
    var r := RewriteText(text);
    if "/opt/yolpol/production" <= text {
      assert text == "/opt/yolpol/production" + text[22..];
      assert text[0] == '/' && r[19..] == text[22..];
    } else if "yolpol-production_" <= text {
      assert text == "yolpol-production_" + text[18..];
      assert text[0] == 'y' && r[0] == 'y' && r[15..] == text[18..];
    } else if text == "yolpol-production-ingress" {
      assert r[0] == 'y' && r[14] == '-';
    } else if text == "https://yolpol.com" {
      assert r[0] == 'h';
    } else if text == "production-web" {
      assert r[0] == 's';
    }
  }

  /** What is rewritten, and that nothing else is. */
  lemma RewritesExactly(text: string, rest: string)
    ensures RewriteText("/opt/yolpol/production" + rest) == "/opt/yolpol/staging" + rest
    ensures RewriteText("yolpol-production_" + rest) == "yolpol-staging_" + rest
    ensures RewriteText("yolpol-production-ingress") == "yolpol-staging-ingress"
    ensures RewriteText("production-web") == "staging-web"
    ensures RewriteText("https://yolpol.com") == "https://staging.yolpol.com"
    ensures "/opt/yolpol/production" <= text || "yolpol-production_" <= text || RewriteText(text) == text
      || text in {"yolpol-production-ingress", "production-web", "https://yolpol.com"}
  {
    var a, b := "/opt/yolpol/production" + rest, "yolpol-production_" + rest;
    assert a[22..] == rest && b[18..] == rest && a[0] == '/' && b[0] == 'y';
    assert "yolpol-production-ingress"[17] == '-' && "production-web"[0] == 'p' && "https://yolpol.com"[0] == 'h';
  }

  lemma ContainsIff(text: string, part: string)
    ensures Contains(text, part) <==> exists a: string, b: string :: text == a + part + b
  {
    if i :| 0 <= i <= |text| && part <= text[i..] {
      assert text == text[..i] + part + text[i + |part|..];
    }
    if a: string, b: string :| text == a + part + b {
      assert text[|a|..] == part + b;
      PartAt(text, |a|, part);
    }
  }

  /** What the walk forbids in a text. */
  lemma ForbidsExactly(text: string)
    ensures ForbiddenText(text) <==>
      || text == "staging"
      || exists a: string, part: string, b: string ::
        && text == a + part + b
        && part in {"/opt/yolpol/staging", "yolpol-staging_", "yolpol-staging-", "staging.yolpol.com"}
  {
    var parts := {"/opt/yolpol/staging", "yolpol-staging_", "yolpol-staging-", "staging.yolpol.com"};
    forall part | part in parts
      ensures Contains(text, part) <==> exists a: string, b: string :: text == a + part + b
    {
      ContainsIff(text, part);
    }
    assert ForbiddenText(text) <==> text == "staging" || exists part :: part in parts && Contains(text, part);
  }

  // ------------------------------------------------------------------
  // Models.

  /** `reject_staging_reference` does not raise. */
  predicate Accepted(value: Json) {
    match value
    case Object(members) => forall k :: k in members ==> !Contains(k, "YOLPOL_STAGING_") && Accepted(members[k])
    case Array(items) => forall i :: 0 <= i < |items| ==> Accepted(items[i])
    case Text(text) => !ForbiddenText(text)
    case Other(_) => true
  }

  /** The walk looks at every key and every text, however deep. */
  lemma AcceptsExactly(members: map<string, Json>, items: seq<Json>, text: string, code: int)
    ensures Accepted(Object(members)) <==>
      && (forall k :: k in members ==> Accepted(members[k]))
      && forall a: string, b: string :: a + "YOLPOL_STAGING_" + b !in members
    ensures Accepted(Array(items)) <==> forall i :: 0 <= i < |items| ==> Accepted(items[i])
    ensures (Accepted(Text(text)) <==> !ForbiddenText(text)) && Accepted(Other(code))
  {
    forall k: string
      ensures Contains(k, "YOLPOL_STAGING_") <==> exists a: string, b: string :: k == a + "YOLPOL_STAGING_" + b
    {
      ContainsIff(k, "YOLPOL_STAGING_");
    }
  }

  /** `f` at every text that is a value of the model; keys stay. */
  function MapTexts(f: string -> string, value: Json): Json {
    match value
    case Object(members) => Object(map k | k in members :: MapTexts(f, members[k]))
    case Array(items) => Array(seq(|items|, i requires 0 <= i < |items| => MapTexts(f, items[i])))
    case Text(text) => Text(f(text))
    case Other(_) => value
  }

  function Normalize(value: Json): Json { MapTexts(RewriteText, value) }

  /** No text of the model is one of the two ingress aliases. */
  predicate AliasFree(value: Json) {
    match value
    case Object(members) => forall k :: k in members ==> AliasFree(members[k])
    case Array(items) => forall i :: 0 <= i < |items| ==> AliasFree(items[i])
    case Text(text) => SwapAlias(text) == text
    case Other(_) => true
  }

  lemma {:induction false} RestoreNormalized(value: Json)
    requires Accepted(value)
    ensures MapTexts(RestoreText, Normalize(value)) == MapTexts(MergeAlias, value)
  {
    match value
    case Object(members) =>
      forall k | k in members
        ensures MapTexts(RestoreText, Normalize(members[k])) == MapTexts(MergeAlias, members[k])
      {
        RestoreNormalized(members[k]);
      }
    case Array(items) =>
      forall i | 0 <= i < |items|
        ensures MapTexts(RestoreText, Normalize(items[i])) == MapTexts(MergeAlias, items[i])
      {
        RestoreNormalized(items[i]);
      }
    case Text(text) => RestoreRewritten(text);
    case Other(_) =>
  }

  lemma {:induction false} MapTwice(f: string -> string, g: string -> string, h: string -> string, value: Json)
    requires forall text :: f(g(text)) == h(text)
    ensures MapTexts(f, MapTexts(g, value)) == MapTexts(h, value)
  {
    match value
    case Object(members) =>
      forall k | k in members
        ensures MapTexts(f, MapTexts(g, members[k])) == MapTexts(h, members[k])
      {
        MapTwice(f, g, h, members[k]);
      }
    case Array(items) =>
      forall i | 0 <= i < |items|
        ensures MapTexts(f, MapTexts(g, items[i])) == MapTexts(h, items[i])
      {
        MapTwice(f, g, h, items[i]);
      }
    case Text(_) =>
    case Other(_) =>
  }

  /** Two accepted models have the same normal form exactly when they differ at
      most in which of the two ingress aliases stands where. */
  lemma NormalFormsAgreeIff(a: Json, b: Json)
    requires Accepted(a) && Accepted(b)
    ensures Normalize(a) == Normalize(b) <==> MapTexts(MergeAlias, a) == MapTexts(MergeAlias, b)
  {
    RestoreNormalized(a);
    RestoreNormalized(b);
    MergedAliasNormalizes();
    MapTwice(RewriteText, MergeAlias, RewriteText, a);
    MapTwice(RewriteText, MergeAlias, RewriteText, b);
  }

  lemma MergedAliasNormalizes()
    ensures forall text :: RewriteText(MergeAlias(text)) == RewriteText(text)
    ensures forall text :: RewriteText(SwapAlias(text)) == RewriteText(text)
  {
    var a, b := "production-web", "staging-web";
    assert a[0] == 'p' && b[0] == 's';
    assert RewriteText(a) == b && RewriteText(b) == b;
  }

  lemma {:induction false} AliasFreeStays(value: Json)
    ensures AliasFree(value) <==> MapTexts(SwapAlias, value) == value
    ensures AliasFree(MapTexts(MergeAlias, value)) ==> MapTexts(MergeAlias, value) == value
    ensures AliasFree(value) ==> MapTexts(MergeAlias, value) == value
  {
    hide SwapAlias, MergeAlias;
    match value
    case Object(members) =>
      forall k | k in members
        ensures AliasFree(members[k]) <==> MapTexts(SwapAlias, members[k]) == members[k]
        ensures AliasFree(MapTexts(MergeAlias, members[k])) ==> MapTexts(MergeAlias, members[k]) == members[k]
        ensures AliasFree(members[k]) ==> MapTexts(MergeAlias, members[k]) == members[k]
      {
        AliasFreeStays(members[k]);
      }
    case Array(items) =>
      forall i | 0 <= i < |items|
        ensures AliasFree(items[i]) <==> MapTexts(SwapAlias, items[i]) == items[i]
        ensures AliasFree(MapTexts(MergeAlias, items[i])) ==> MapTexts(MergeAlias, items[i]) == items[i]
        ensures AliasFree(items[i]) ==> MapTexts(MergeAlias, items[i]) == items[i]
      {
        AliasFreeStays(items[i]);
      }
    case Text(text) => AliasTextStays(text);
    case Other(_) =>
  }

  lemma {:induction false} SwappedIsAccepted(value: Json)
    ensures Accepted(value) ==> Accepted(MapTexts(SwapAlias, value))
  {
    hide Contains, ForbiddenText, SwapAlias;
    match value
    case Object(members) =>
      forall k | k in members
        ensures Accepted(members[k]) ==> Accepted(MapTexts(SwapAlias, members[k]))
      {
        SwappedIsAccepted(members[k]);
      }
    case Array(items) =>
      forall i | 0 <= i < |items|
        ensures Accepted(items[i]) ==> Accepted(MapTexts(SwapAlias, items[i]))
      {
        SwappedIsAccepted(items[i]);
      }
    case Text(text) => AliasTextStays(text);
    case Other(_) =>
  }

  lemma AliasTextStays(text: string)
    ensures SwapAlias(MergeAlias(text)) == MergeAlias(text) || SwapAlias(text) == text ==> MergeAlias(text) == text
    ensures !ForbiddenText(text) ==> !ForbiddenText(SwapAlias(text))
  {
    hide ForbiddenText;
    AliasesAreAccepted();
  }

  lemma AliasesAreAccepted()
    ensures !ForbiddenText("production-web") && !ForbiddenText("staging-web")
  {
  }

  /** Nothing else is lost: the normal form of an accepted model belongs to no
      other accepted model exactly when no alias occurs in the model. */
  lemma OnlyTheAliasIsLost(a: Json)
    requires Accepted(a)
    ensures AliasFree(a) <==> forall b :: Accepted(b) && Normalize(b) == Normalize(a) ==> b == a
  {
    AliasFreeStays(a);
    if AliasFree(a) {
      forall b | Accepted(b) && Normalize(b) == Normalize(a)
        ensures b == a
      {
        NormalFormsAgreeIff(a, b);
        AliasFreeStays(b);
      }
    } else {
      var b := MapTexts(SwapAlias, a);
      SwappedIsAccepted(a);
      MergedAliasNormalizes();
      MapTwice(RewriteText, SwapAlias, RewriteText, a);
      assert b != a && Accepted(b) && Normalize(b) == Normalize(a);
    }
  }

  // ------------------------------------------------------------------
  // The pinned alias.

  function At(value: Json, path: seq<string>): Option<Json> {
    if path == [] then Some(value)
    else if value.Object? && path[0] in value.members then At(value.members[path[0]], path[1..])
    else None
  }

  /** `f` at every text of the model outside of the value at `path`. */
  function MapOutside(f: string -> string, value: Json, path: seq<string>): Json
    decreases path
  {
    if path == [] then value
    else if value.Object? then
      Object(map k | k in value.members ::
        if k == path[0] then MapOutside(f, value.members[k], path[1..]) else MapTexts(f, value.members[k]))
    else MapTexts(f, value)
  }

  /** No text outside of the value at `path` is one of the two ingress aliases. */
  predicate AliasFreeOutside(value: Json, path: seq<string>)
    decreases path
  {
    path == []
    || if value.Object? then
         forall k :: k in value.members ==>
           if k == path[0] then AliasFreeOutside(value.members[k], path[1..]) else AliasFree(value.members[k])
       else AliasFree(value)
  }

  const ALIASES := ["services", "web", "networks", "ingress", "aliases"]

  /** The ingress network of the web service has the production alias and no
      other, as the check of its networks demands. */
  predicate Pinned(value: Json) {
    At(value, ALIASES) == Some(Array([Text("production-web")]))
  }

  /** Two pairs of maps that differ only at `key` agree in the same way if they do there. */
  lemma AgreeAsFarAs<T>(m: map<string, T>, n: map<string, T>, x: map<string, T>, y: map<string, T>, key: string)
    requires m.Keys == x.Keys && n.Keys == y.Keys && key in m && key in n
    requires forall k :: k in m && k != key ==> x[k] == m[k]
    requires forall k :: k in n && k != key ==> y[k] == n[k]
    requires m[key] == n[key] <==> x[key] == y[key]
    ensures m == n <==> x == y
  {
    if m == n { assert forall k :: k in x ==> k in y && x[k] == y[k]; }
    if x == y { assert forall k :: k in m ==> k in n && m[k] == n[k]; }
  }

  lemma {:induction false} AgreeOutside(a: Json, b: Json, path: seq<string>)
    requires At(a, path).Some? && At(a, path) == At(b, path)
    ensures MapTexts(MergeAlias, a) == MapTexts(MergeAlias, b)
      <==> MapOutside(MergeAlias, a, path) == MapOutside(MergeAlias, b, path)
    decreases path
  {
    if path != [] {
      var key := path[0];
      AgreeOutside(a.members[key], b.members[key], path[1..]);
      var f := MergeAlias;
      var m, n := MapTexts(f, a).members, MapTexts(f, b).members;
      var x, y := MapOutside(f, a, path).members, MapOutside(f, b, path).members;
      assert forall k :: k in a.members && k != key ==> x[k] == m[k];
      assert forall k :: k in b.members && k != key ==> y[k] == n[k];
      assert m.Keys == x.Keys == a.members.Keys && n.Keys == y.Keys == b.members.Keys;
      AgreeAsFarAs(m, n, x, y, key);
    }
  }

  /** Swapping and merging the aliases leaves the alias-free members alone, and
      merging leaves alone what it makes alias-free. */
  lemma MembersStay(members: map<string, Json>)
    ensures forall k :: k in members ==>
      (AliasFree(members[k]) <==> MapTexts(SwapAlias, members[k]) == members[k])
    ensures forall k :: k in members ==>
      (AliasFree(MapTexts(MergeAlias, members[k])) || AliasFree(members[k]) ==>
        MapTexts(MergeAlias, members[k]) == members[k])
  {
    forall k | k in members
      ensures AliasFree(members[k]) <==> MapTexts(SwapAlias, members[k]) == members[k]
      ensures AliasFree(MapTexts(MergeAlias, members[k])) || AliasFree(members[k]) ==>
        MapTexts(MergeAlias, members[k]) == members[k]
    {
      AliasFreeStays(members[k]);
    }
  }

  lemma SameMembers<T>(m: map<string, T>, x: map<string, T>)
    requires x.Keys == m.Keys
    ensures x == m <==> forall k :: k in m ==> x[k] == m[k]
  {
    assert x == m <==> x.Keys == m.Keys && forall k :: k in m ==> x[k] == m[k];
  }

  lemma {:induction false} OutsideStays(value: Json, path: seq<string>)
    requires At(value, path).Some?
    ensures AliasFreeOutside(value, path) <==> MapOutside(SwapAlias, value, path) == value
    ensures AliasFreeOutside(MapOutside(MergeAlias, value, path), path) ==> MapOutside(MergeAlias, value, path) == value
    ensures AliasFreeOutside(value, path) ==> MapOutside(MergeAlias, value, path) == value
    decreases path
  {
    if path != [] {
      hide MapTexts, AliasFree;
      OutsideStays(value.members[path[0]], path[1..]);
      MembersStay(value.members);
      SameMembers(value.members, MapOutside(SwapAlias, value, path).members);
      SameMembers(value.members, MapOutside(MergeAlias, value, path).members);
    }
  }

  lemma {:induction false} SwappedOutside(value: Json, path: seq<string>)
    requires At(value, path).Some?
    ensures At(MapOutside(SwapAlias, value, path), path) == At(value, path)
    ensures Normalize(MapOutside(SwapAlias, value, path)) == Normalize(value)
    ensures Accepted(value) ==> Accepted(MapOutside(SwapAlias, value, path))
    decreases path
  {
    if path != [] {
      SwappedOutside(value.members[path[0]], path[1..]);
      MergedAliasNormalizes();
      forall k | k in value.members
        ensures Normalize(MapTexts(SwapAlias, value.members[k])) == Normalize(value.members[k])
        ensures Accepted(value.members[k]) ==> Accepted(MapTexts(SwapAlias, value.members[k]))
      {
        MapTwice(RewriteText, SwapAlias, RewriteText, value.members[k]);
        SwappedIsAccepted(value.members[k]);
      }
    }
  }

  /** Two accepted models with the alias pinned have the same normal form exactly
      when they differ at most in which of the two aliases stands where outside
      of the pinned place. */
  lemma PinnedModelsAgreeIff(a: Json, b: Json)
    requires Accepted(a) && Accepted(b) && Pinned(a) && Pinned(b)
    ensures Normalize(a) == Normalize(b) <==>
      MapOutside(MergeAlias, a, ALIASES) == MapOutside(MergeAlias, b, ALIASES)
  {
    NormalFormsAgreeIff(a, b);
    AgreeOutside(a, b, ALIASES);
  }

  /** Among accepted models with the alias pinned, a model is determined by its
      normal form exactly when no alias occurs outside of the pinned place. */
  lemma PinnedAliasLosesNothing(a: Json)
    requires Accepted(a) && Pinned(a)
    ensures AliasFreeOutside(a, ALIASES) <==>
      forall b :: Accepted(b) && Pinned(b) && Normalize(b) == Normalize(a) ==> b == a
  {
    hide Normalize;
    OutsideStays(a, ALIASES);
    if AliasFreeOutside(a, ALIASES) {
      forall b | Accepted(b) && Pinned(b) && Normalize(b) == Normalize(a)
        ensures b == a
      {
        PinnedModelsAgreeIff(a, b);
        OutsideStays(b, ALIASES);
      }
    } else {
      SwappedOutside(a, ALIASES);
      var b := MapOutside(SwapAlias, a, ALIASES);
      assert b != a && Accepted(b) && Pinned(b) && Normalize(b) == Normalize(a);
    }
  }
}
