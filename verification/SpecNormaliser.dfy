/** Rewriting an OpenAPI document before client code is generated from it. */
module SpecNormaliser {
  import opened Keyset
  import opened Json

  const DOTTED := "crate.errors.ErrorBody"
  const PLAIN := "ErrorBody"

  type Fields = map<string, Json>

  // ---- strings -----------------------------------------------------------------------

  /** Replaces every `/crate.errors.ErrorBody`, left to right. */
  function Rewrite(s: string): string {
    if s == "" then ""
    else if "/" + DOTTED <= s then "/" + PLAIN + Rewrite(s[1 + |DOTTED|..])
    else [s[0]] + Rewrite(s[1..])
  }

  predicate Occurs(s: string) {
    exists i | 0 <= i < |s| :: "/" + DOTTED <= s[i..]
  }

  lemma {:induction false} NamesAreNotForged(name: string, s: string)
    requires '/' !in name && name <= Rewrite(s)
    ensures name <= s
  {
    if name != "" {
      assert name[0] in name && Rewrite(s)[0] == name[0];
      assert !("/" + DOTTED <= s);
      assert Rewrite(s)[1..] == Rewrite(s[1..]);
      NamesAreNotForged(name[1..], s[1..]);
    }
  }

  lemma PrefixByHead(p: string, s: string)
    requires p != "" && s != ""
    ensures p <= s <==> p[0] == s[0] && p[1..] <= s[1..]
  {
    assert p == [p[0]] + p[1..] && s == [s[0]] + s[1..];
    if p <= s { assert s[1..] == p[1..] + s[|p|..]; }
    if p[0] == s[0] && p[1..] <= s[1..] { assert s == p + s[1..][|p| - 1..]; }
  }

  lemma MatchAtFront(c: char, rest: string)
    ensures "/" + DOTTED <= [c] + rest <==> c == '/' && DOTTED <= rest
  {
    PrefixByHead("/" + DOTTED, [c] + rest);
    assert ([c] + rest)[1..] == rest && ("/" + DOTTED)[1..] == DOTTED;
  }

  lemma MatchStarts(s: string)
    requires "/" + DOTTED <= s
    ensures |s| >= 3 && s[0] == '/' && s[1] == 'c' && s[2] == 'r'
  {
    assert forall k | 0 <= k < 3 :: s[k] == ("/" + DOTTED)[k];
  }

  /** No occurrence in `front + rest` when there is none in `rest` and none starts within `front`. */
  lemma NoneInJoin(front: string, rest: string)
    requires !Occurs(rest)
    requires forall i | 0 <= i < |front| :: !("/" + DOTTED <= (front + rest)[i..])
    ensures !Occurs(front + rest)
  {
    forall i | |front| <= i < |front + rest|
      ensures !("/" + DOTTED <= (front + rest)[i..])
    {
      assert (front + rest)[i..] == rest[i - |front|..];
    }
  }

  lemma PlainStartsNone(rest: string, i: nat)
    requires i < |"/" + PLAIN|
    ensures !("/" + DOTTED <= ("/" + PLAIN + rest)[i..])
  {
    var s := "/" + PLAIN + rest;
    assert s[1] == 'E' && (i > 0 ==> s[i] != '/');
    assert forall k | 0 <= k < |s| - i :: s[i..][k] == s[i + k];
    if "/" + DOTTED <= s[i..] { MatchStarts(s[i..]); }
  }

  lemma {:induction false} RewriteLeavesNone(s: string)
    ensures !Occurs(Rewrite(s))
  {
    if s == "" {
    } else if "/" + DOTTED <= s {
      var rest := Rewrite(s[1 + |DOTTED|..]);
      RewriteLeavesNone(s[1 + |DOTTED|..]);
      forall i | 0 <= i < |"/" + PLAIN|
        ensures !("/" + DOTTED <= ("/" + PLAIN + rest)[i..])
      {
        PlainStartsNone(rest, i);
      }
      NoneInJoin("/" + PLAIN, rest);
    } else {
      RewriteLeavesNone(s[1..]);
      HeadStartsNone(s[0], s[1..]);
      assert s == [s[0]] + s[1..];
      NoneInJoin([s[0]], Rewrite(s[1..]));
    }
  }

  lemma HeadStartsNone(c: char, rest: string)
    ensures !("/" + DOTTED <= [c] + rest) ==> !("/" + DOTTED <= ([c] + Rewrite(rest))[0..])
  {
    var s := [c] + Rewrite(rest);
    assert s[0..] == s;
    MatchAtFront(c, rest);
    MatchAtFront(c, Rewrite(rest));
    if DOTTED <= Rewrite(rest) { NamesAreNotForged(DOTTED, rest); }
  }

  lemma {:induction false} RewriteShrinks(s: string)
    ensures if Occurs(s) then |Rewrite(s)| < |s| else Rewrite(s) == s
  {
    if s != "" {
      assert s[0..] == s;
      var rest := if "/" + DOTTED <= s then s[1 + |DOTTED|..] else s[1..];
      RewriteShrinks(rest);
      if !("/" + DOTTED <= s) {
        assert Occurs(s) ==> Occurs(rest) by {
          if Occurs(s) {
            var i :| 0 <= i < |s| && "/" + DOTTED <= s[i..];
            assert rest[i - 1..] == s[i..];
          }
        }
        if Occurs(rest) {
          var i :| 0 <= i < |rest| && "/" + DOTTED <= rest[i..];
          assert s[i + 1..] == rest[i..];
        }
      }
    }
  }

  // ---- the tree walk -------------------------------------------------------------------

  /** A free-form object schema. */
  predicate IsBare(f: Fields) {
    "type" in f && f["type"] == String("object") && "properties" !in f && "additionalProperties" !in f
  }

  predicate IsNullable(f: Fields) {
    "nullable" in f && f["nullable"] == Bool(true)
  }

  function AnyOrNull(): Json {
    Object(map["anyOf" := Array([Object(map[]), Object(map["type" := String("null")])])])
  }

  function Labels(f: Fields): Fields {
    map k | k in f && k in {"description", "title"} :: f[k]
  }

  function Walk(node: Json): Json
    decreases node, 0
  {
    match node
    case Object(f) =>
      if IsBare(f) then
        if IsNullable(f) then AnyOrNull() else Object(Labels(f))
      else
        Object(map k | k in f :: WalkField(k, f[k]))
    case Array(items) => Array(seq(|items|, i requires 0 <= i < |items| => Walk(items[i])))
    case _ => node
  }

  function WalkField(name: string, value: Json): Json
    decreases value, 1
  {
    if name == "$ref" && value.String? then String(Rewrite(value.text)) else Walk(value)
  }

  /** A free-form object schema comes to admit any value, and null when it said so; only its description and
      title remain of it otherwise. */
  lemma FreeFormBecomesAny(f: Fields)
    requires "type" in f && f["type"] == String("object") && "properties" !in f && "additionalProperties" !in f
    ensures if "nullable" in f && f["nullable"] == Bool(true)
            then Walk(Object(f)) == Object(map["anyOf" := Array([Object(map[]), Object(map["type" := String("null")])])])
            else Walk(Object(f)).Object? && forall k ::
                   && (k in Walk(Object(f)).fields <==> k in f && (k == "description" || k == "title"))
                   && (k in Walk(Object(f)).fields ==> Walk(Object(f)).fields[k] == f[k])
  {
  }

  /** Any other object keeps its fields; a reference is rewritten, what lies deeper is walked. */
  lemma OtherObjectsKeepTheirFields(f: Fields)
    requires "type" !in f || f["type"] != String("object") || "properties" in f || "additionalProperties" in f
    ensures Walk(Object(f)).Object? && Walk(Object(f)).fields.Keys == f.Keys
    ensures forall k | k in f ::
              Walk(Object(f)).fields[k] == if k == "$ref" && f[k].String? then String(Rewrite(f[k].text)) else Walk(f[k])
  {
  }

  /** Nothing the walk would visit is left to rewrite. */
  predicate Clean(node: Json)
    decreases node, 0
  {
    match node
    case Object(f) => !IsBare(f) && forall k | k in f :: CleanField(k, f[k])
    case Array(items) => forall i | 0 <= i < |items| :: Clean(items[i])
    case _ => true
  }

  predicate CleanField(name: string, value: Json)
    decreases value, 1
  {
    if name == "$ref" && value.String? then !Occurs(value.text) else Clean(value)
  }

  /** Where the walk keeps a description or title unvisited, that label is clean already. */
  predicate CleanLabels(node: Json) {
    match node
    case Object(f) =>
      if IsBare(f) then IsNullable(f) || forall k | k in Labels(f) :: Clean(f[k])
      else forall k | k in f :: CleanLabels(f[k])
    case Array(items) => forall i | 0 <= i < |items| :: CleanLabels(items[i])
    case _ => true
  }

  /** The documents the walk leaves alone are exactly the clean ones. */
  lemma {:induction false} CleanMeansFixed(node: Json)
    ensures Walk(node) == node <==> Clean(node)
    decreases node, 0
  {
    match node
    case Object(f) =>
      if IsBare(f) {
        assert Walk(node) != node by {
          if !IsNullable(f) { assert "type" !in Labels(f); }
        }
      } else {
        forall k | k in f
          ensures WalkField(k, f[k]) == f[k] <==> CleanField(k, f[k])
        {
          CleanFieldMeansFixed(k, f[k]);
        }
        var after := Walk(node).fields;
        assert after.Keys == f.Keys;
        if Clean(node) { assert after == f; }
        if after == f {
          forall k | k in f ensures WalkField(k, f[k]) == f[k] { assert after[k] == f[k]; }
        }
      }
    case Array(items) =>
      forall i | 0 <= i < |items| ensures Walk(items[i]) == items[i] <==> Clean(items[i]) { CleanMeansFixed(items[i]); }
      var after := Walk(node).items;
      if Clean(node) { assert after == items; }
      if after == items {
        forall i | 0 <= i < |items| ensures Walk(items[i]) == items[i] { assert after[i] == items[i]; }
      }
    case _ =>
  }

  lemma CleanFieldMeansFixed(name: string, value: Json)
    ensures WalkField(name, value) == value <==> CleanField(name, value)
    decreases value, 1
  {
    if name == "$ref" && value.String? {
      RewriteShrinks(value.text);
    } else {
      CleanMeansFixed(value);
    }
  }

  /** What the walk leaves is clean, at every position, exactly when the labels it kept were. */
  lemma {:induction false} WalkCleans(node: Json)
    ensures Clean(Walk(node)) <==> CleanLabels(node)
    decreases node, 0
  {
    match node
    case Object(f) =>
      if IsBare(f) {
        if !IsNullable(f) {
          var l := Labels(f);
          assert Walk(node) == Object(l) && !IsBare(l);
          assert forall k | k in l :: CleanField(k, l[k]) == Clean(f[k]);
        }
      } else {
        var after := Walk(node).fields;
        StaysShaped(f);
        forall k | k in f
          ensures CleanField(k, after[k]) <==> CleanLabels(f[k])
        {
          WalkCleansField(k, f[k]);
        }
      }
    case Array(items) =>
      forall i | 0 <= i < |items| ensures Clean(Walk(items[i])) <==> CleanLabels(items[i]) { WalkCleans(items[i]); }
      var after := Walk(node).items;
      assert forall i | 0 <= i < |items| :: after[i] == Walk(items[i]);
    case _ =>
  }

  lemma WalkCleansField(name: string, value: Json)
    ensures CleanField(name, WalkField(name, value)) <==> CleanLabels(value)
    decreases value, 1
  {
    if name == "$ref" && value.String? {
      RewriteLeavesNone(value.text);
    } else {
      WalkCleans(value);
    }
  }

  lemma StaysShaped(f: Fields)
    requires !IsBare(f)
    ensures !IsBare(Walk(Object(f)).fields)
  {
    if "type" in f { assert Walk(Object(f)).fields["type"] == Walk(f["type"]); }
  }

  /** Walking twice is walking once exactly when the kept labels are clean, as strings always are. */
  lemma WalkIsIdempotent(node: Json)
    ensures Walk(Walk(node)) == Walk(node) <==> CleanLabels(node)
  {
    WalkCleans(node);
    CleanMeansFixed(Walk(node));
  }

  // ---- the whole document ----------------------------------------------------------------

  function Get(f: Fields, name: string): Json {
    if name in f then f[name] else Object(map[])
  }

  predicate HasText(s: string, part: string) {
    exists i | 0 <= i <= |s| :: part <= s[i..]
  }

  /** Drops the dotted schema name, keeping its schema under the plain one unless that is taken. */
  function RenamedSchemas(schemas: Fields): Fields {
    if DOTTED !in schemas then schemas
    else if PLAIN in schemas then schemas - {DOTTED}
    else (schemas - {DOTTED})[PLAIN := schemas[DOTTED]]
  }

  /** None where the containers have shapes on which the script raises. */
  function Renamed(spec: Json): Option<Json> {
    if !spec.Object? || !Get(spec.fields, "components").Object? then None
    else
      var components := Get(spec.fields, "components").fields;
      match Get(components, "schemas")
      case Object(schemas) =>
        if DOTTED !in schemas then Some(spec)
        else Some(Object(spec.fields["components" := Object(components["schemas" := Object(RenamedSchemas(schemas))])]))
      case Array(items) => if String(DOTTED) in items then None else Some(spec)
      case String(text) => if HasText(text, DOTTED) then None else Some(spec)
      case _ => None
  }

  function NormaliseSpec(spec: Json): Option<Json> {
    match Renamed(spec)
    case None => None
    case Some(renamed) => Some(Walk(renamed))
  }

  lemma FieldIsWalked(f: Fields, name: string)
    requires !IsBare(f) && name in f && name != "$ref"
    ensures Walk(Object(f)).fields[name] == Walk(f[name])
  {
  }

  /** An object, or a list or a text without the dotted name. */
  predicate IsWorkable(schemas: Json) {
    match schemas
    case Object(_) => true
    case Array(items) => String("crate.errors.ErrorBody") !in items
    case String(text) => forall i | 0 <= i <= |text| :: !("crate.errors.ErrorBody" <= text[i..])
    case _ => false
  }

  /** On which documents the script does not raise. */
  lemma NormalisingSucceedsWhen(spec: Json)
    ensures NormaliseSpec(spec).Some? <==>
              && spec.Object?
              && ("components" in spec.fields ==>
                    var components := spec.fields["components"];
                    components.Object? && ("schemas" in components.fields ==> IsWorkable(components.fields["schemas"])))
  {
  }

  /** A document already walked needs no renaming, whatever its containers look like. */
  lemma NothingLeftToRename(spec: Json)
    requires Renamed(spec).Some?
    ensures Renamed(Walk(Renamed(spec).value)) == Some(Walk(Renamed(spec).value))
  {
    var renamed := Renamed(spec).value;
    var f := renamed.fields;
    var after := Walk(renamed);
    if !IsBare(f) && "components" in f {
      FieldIsWalked(f, "components");
      var c := f["components"].fields;
      if !IsBare(c) && "schemas" in c {
        FieldIsWalked(c, "schemas");
        match c["schemas"] {
          case Object(schemas) => assert DOTTED !in schemas;
          case Array(items) => ItemsStayFree(items);
          case _ =>
        }
      }
    }
  }

  lemma ItemsStayFree(items: seq<Json>)
    requires String(DOTTED) !in items
    ensures String(DOTTED) !in Walk(Array(items)).items
  {
    forall i | 0 <= i < |items|
      ensures Walk(items[i]) != String(DOTTED)
    {
      assert items[i] in items;
    }
  }

  /** Normalising a normalised document changes nothing exactly when every label the first pass kept
      was clean. */
  lemma NormalisingTwice(spec: Json)
    requires NormaliseSpec(spec).Some?
    ensures var out := NormaliseSpec(spec).value;
            && (NormaliseSpec(out) == Some(out) <==> CleanLabels(Renamed(spec).value))
            && (Clean(out) <==> CleanLabels(Renamed(spec).value))
  {
    NothingLeftToRename(spec);
    WalkIsIdempotent(Renamed(spec).value);
    WalkCleans(Renamed(spec).value);
  }

  // ---- references -------------------------------------------------------------------------

  const SCHEMAS := "#/components/schemas"

  /** The schemas of a document, none when its containers are missing or odd. */
  function SchemasOf(spec: Json): Fields {
    if !spec.Object? || !Get(spec.fields, "components").Object? then map[]
    else
      var schemas := Get(Get(spec.fields, "components").fields, "schemas");
      if schemas.Object? then schemas.fields else map[]
  }

  /** The containers on the way to the schemas are not themselves free-form object schemas. */
  predicate PlainContainers(spec: Json) {
    spec.Object? && !IsBare(spec.fields) &&
    Get(spec.fields, "components").Object? && !IsBare(Get(spec.fields, "components").fields) &&
    var schemas := Get(Get(spec.fields, "components").fields, "schemas");
    schemas.Object? && !IsBare(schemas.fields) && !IsBare(RenamedSchemas(schemas.fields))
  }

  lemma SchemasAreWalked(spec: Json)
    requires PlainContainers(spec)
    ensures NormaliseSpec(spec).Some?
    ensures var before, after := RenamedSchemas(SchemasOf(spec)), SchemasOf(NormaliseSpec(spec).value);
            after.Keys == before.Keys && forall n | n in before :: after[n] == WalkField(n, before[n])
  {
    var renamed := Renamed(spec).value;
    var f := renamed.fields;
    assert !IsBare(f);
    if "components" in f {
      FieldIsWalked(f, "components");
      var c := f["components"].fields;
      assert !IsBare(c);
      if "schemas" in c {
        FieldIsWalked(c, "schemas");
      }
    }
  }

  lemma {:induction false} SlashlessIsKept(s: string)
    requires '/' !in s
    ensures Rewrite(s) == s
  {
    if s != "" {
      assert s[0] in s;
      SlashlessIsKept(s[1..]);
    }
  }

  lemma {:induction false} RewriteSkips(front: string, rest: string)
    requires forall i | 0 <= i < |front| :: !("/" + DOTTED <= (front + rest)[i..])
    ensures Rewrite(front + rest) == front + Rewrite(rest)
  {
    var s := front + rest;
    if front == "" {
      assert s == rest;
    } else {
      assert s[0..] == s && s[1..] == front[1..] + rest;
      forall i | 0 <= i < |front[1..]|
        ensures !("/" + DOTTED <= (front[1..] + rest)[i..])
      {
        assert (front[1..] + rest)[i..] == s[i + 1..];
      }
      RewriteSkips(front[1..], rest);
      assert Rewrite(s) == [s[0]] + Rewrite(s[1..]);
    }
  }

  /** The name a reference asks for once rewritten. */
  function NewName(name: string): string {
    if DOTTED <= name then PLAIN + name[|DOTTED|..] else name
  }

  lemma NoMatchInPath(rest: string, i: nat)
    requires i < |SCHEMAS| && rest != "" && rest[0] == '/'
    ensures !("/" + DOTTED <= (SCHEMAS + rest)[i..])
  {
    var s := SCHEMAS + rest;
    var tail := s[i..];
    assert forall k | 0 <= k < |tail| :: tail[k] == s[i + k];
    assert s[0] == '#' && s[2] == 'c' && s[3] == 'o' && s[13] == 's';
    assert SCHEMAS[i] == '/' ==> i == 1 || i == 12;
    if "/" + DOTTED <= tail { MatchStarts(tail); }
  }

  lemma RewriteAfterPath(rest: string)
    requires rest != "" && rest[0] == '/'
    ensures Rewrite(SCHEMAS + rest) == SCHEMAS + Rewrite(rest)
  {
    forall i | 0 <= i < |SCHEMAS|
      ensures !("/" + DOTTED <= (SCHEMAS + rest)[i..])
    {
      NoMatchInPath(rest, i);
    }
    RewriteSkips(SCHEMAS, rest);
  }

  lemma MatchIsReplaced(tail: string)
    ensures Rewrite("/" + DOTTED + tail) == "/" + PLAIN + Rewrite(tail)
  {
    var s := "/" + DOTTED + tail;
    assert s[1 + |DOTTED|..] == tail;
  }

  lemma MismatchIsKept(name: string)
    requires !(DOTTED <= name)
    ensures Rewrite("/" + name) == "/" + Rewrite(name)
  {
    MatchAtFront('/', name);
    assert ("/" + name)[1..] == name;
  }

  lemma NameIsRenamed(name: string)
    requires '/' !in name
    ensures Rewrite("/" + name) == "/" + NewName(name)
  {
    if DOTTED <= name {
      var tail := name[|DOTTED|..];
      assert name == DOTTED + tail;
      JoinsAssociate("/", DOTTED, tail);
      JoinsAssociate("/", PLAIN, tail);
      MatchIsReplaced(tail);
      SlashlessIsKept(tail);
    } else {
      MismatchIsKept(name);
      SlashlessIsKept(name);
    }
  }

  lemma ReferenceIsRenamed(name: string)
    requires '/' !in name
    ensures Rewrite(SCHEMAS + "/" + name) == SCHEMAS + "/" + NewName(name)
  {
    RewriteAfterPath("/" + name);
    NameIsRenamed(name);
    JoinsAssociate(SCHEMAS, "/", name);
    JoinsAssociate(SCHEMAS, "/", NewName(name));
  }

  lemma JoinsAssociate(a: string, b: string, c: string)
    ensures a + (b + c) == a + b + c
  {
  }

  /** The rewriting of the one dotted name, spelt out. */
  lemma ErrorBodyIsRenamed()
    ensures Rewrite("#/components/schemas" + "/" + "crate.errors.ErrorBody") == "#/components/schemas" + "/" + "ErrorBody"
  {
    ReferenceIsRenamed(DOTTED);
    assert NewName(DOTTED) == PLAIN;
  }

  /** A reference to a schema that existed resolves afterwards exactly when its name does not properly
      extend the dotted one, or the schema its new name asks for existed too. It then finds the walked
      form of the schema it named, or of the plain schema already there. */
  lemma ReferencesResolve(spec: Json, name: string)
    requires PlainContainers(spec) && name in SchemasOf(spec) && '/' !in name
    ensures Rewrite(SCHEMAS + "/" + name) == SCHEMAS + "/" + NewName(name)
    ensures NormaliseSpec(spec).Some?
    ensures var before, after := SchemasOf(spec), SchemasOf(NormaliseSpec(spec).value);
            && (NewName(name) in after <==> !(DOTTED < name) || NewName(name) in before)
            && (NewName(name) in after ==>
                  after[NewName(name)] == WalkField(NewName(name), before[if NewName(name) in before then NewName(name) else name]))
  {
    ReferenceIsRenamed(name);
    SchemasAreWalked(spec);
    var before := SchemasOf(spec);
    if name == DOTTED {
      assert NewName(name) == PLAIN && PLAIN in RenamedSchemas(before);
    } else if DOTTED <= name {
      assert NewName(name)[0] == 'E' && DOTTED[0] == 'c' && |NewName(name)| > |PLAIN|;
      assert NewName(name) in RenamedSchemas(before) <==> NewName(name) in before;
    } else {
      assert name in RenamedSchemas(before);
    }
  }

  /** The document holds this reference somewhere. */
  predicate Mentions(node: Json, ref: string)
    decreases node, 0
  {
    match node
    case Object(f) => exists k | k in f :: FieldMentions(k, f[k], ref)
    case Array(items) => exists i | 0 <= i < |items| :: Mentions(items[i], ref)
    case _ => false
  }

  predicate FieldMentions(name: string, value: Json, ref: string)
    decreases value, 1
  {
    (name == "$ref" && value == String(ref)) || Mentions(value, ref)
  }

  lemma MentionIsRefOrInside(name: string, value: Json, ref: string)
    requires FieldMentions(name, value, ref)
    ensures if value.String? then name == "$ref" && value.text == ref else Mentions(value, ref)
  {
    if value.String? { assert !Mentions(value, ref); }
  }

  lemma WalkKeepsText(name: string, value: Json)
    ensures WalkField(name, value).String? <==> value.String?
  {
    assert Walk(value).String? <==> value.String?;
  }

  lemma {:induction false} CleanMentions(node: Json, ref: string)
    requires Clean(node) && Mentions(node, ref)
    ensures Rewrite(ref) == ref
  {
    match node
    case Object(f) =>
      var k :| k in f && FieldMentions(k, f[k], ref);
      assert CleanField(k, f[k]);
      MentionIsRefOrInside(k, f[k], ref);
      if f[k].String? { RewriteShrinks(ref); } else { CleanMentions(f[k], ref); }
    case Array(items) =>
      var i :| 0 <= i < |items| && Mentions(items[i], ref);
      CleanMentions(items[i], ref);
  }

  /** The walk invents no reference: each one left is the rewriting of one that was there. */
  lemma {:induction false} ReferencesAreRewritten(node: Json, ref: string) returns (was: string)
    requires CleanLabels(node) && Mentions(Walk(node), ref)
    ensures Mentions(node, was) && ref == Rewrite(was)
  {
    match node
    case Object(f) =>
      if IsBare(f) {
        was := LabelMentions(f, ref);
      } else {
        var after := Walk(node).fields;
        var k :| k in after && FieldMentions(k, after[k], ref);
        MentionIsRefOrInside(k, after[k], ref);
        WalkKeepsText(k, f[k]);
        if f[k].String? {
          was := f[k].text;
          assert f[k] == String(was);
        } else {
          was := ReferencesAreRewritten(f[k], ref);
        }
        assert FieldMentions(k, f[k], was);
      }
    case Array(items) =>
      var i :| 0 <= i < |items| && Mentions(Walk(node).items[i], ref);
      was := ReferencesAreRewritten(items[i], ref);
  }

  lemma LabelMentions(f: Fields, ref: string) returns (was: string)
    requires IsBare(f) && CleanLabels(Object(f)) && Mentions(Walk(Object(f)), ref)
    ensures Mentions(Object(f), was) && ref == Rewrite(was)
  {
    was := ref;
    if IsNullable(f) {
      NoneInAnyOrNull(ref);
    } else {
      var l := Labels(f);
      var k :| k in l && FieldMentions(k, l[k], ref);
      CleanMentions(f[k], ref);
      assert FieldMentions(k, f[k], ref);
    }
  }

  lemma NoneInAnyOrNull(ref: string)
    ensures !Mentions(AnyOrNull(), ref)
  {
    var none, nil := Object(map[]), Object(map["type" := String("null")]);
    assert !Mentions(none, ref) && !Mentions(nil, ref);
    assert !Mentions(Array([none, nil]), ref);
  }

  lemma RenamingInventsNone(spec: Json, ref: string)
    requires PlainContainers(spec) && Mentions(Renamed(spec).value, ref)
    ensures Mentions(spec, ref)
  {
    var renamed := Renamed(spec).value;
    if renamed != spec {
      var f, g := spec.fields, renamed.fields;
      var k :| k in g && FieldMentions(k, g[k], ref);
      if k == "components" {
        assert g[k].Object? && Mentions(g[k], ref);
        var c, d := Get(f, k).fields, g[k].fields;
        assert g[k] == Object(d);
        var j :| j in d && FieldMentions(j, d[j], ref);
        if j == "schemas" {
          assert d[j] == Object(RenamedSchemas(c[j].fields)) && Mentions(d[j], ref);
          SchemasInventNone(c[j].fields, ref);
        }
        assert FieldMentions(j, c[j], ref);
      }
      assert FieldMentions(k, f[k], ref);
    }
  }

  lemma SchemasInventNone(schemas: Fields, ref: string)
    requires Mentions(Object(RenamedSchemas(schemas)), ref)
    ensures Mentions(Object(schemas), ref)
  {
    var after := RenamedSchemas(schemas);
    var k :| k in after && FieldMentions(k, after[k], ref);
    var was := if k == PLAIN && PLAIN !in schemas then DOTTED else k;
    assert FieldMentions(was, schemas[was], ref);
  }

  predicate Resolves(spec: Json, ref: string) {
    exists name | name in SchemasOf(spec) :: '/' !in name && ref == SCHEMAS + "/" + name
  }

  /** A document whose references all resolve still has that property once normalised, provided no
      schema name properly extends the dotted one and the kept labels are clean. */
  lemma NoReferenceBreaks(spec: Json, ref: string)
    requires PlainContainers(spec) && CleanLabels(Renamed(spec).value)
    requires forall name | name in SchemasOf(spec) :: !(DOTTED < name)
    requires forall q | Mentions(spec, q) :: Resolves(spec, q)
    requires NormaliseSpec(spec).Some? && Mentions(NormaliseSpec(spec).value, ref)
    ensures Resolves(NormaliseSpec(spec).value, ref)
  {
    var was := ReferencesAreRewritten(Renamed(spec).value, ref);
    RenamingInventsNone(spec, was);
    assert Resolves(spec, was);
    var name :| name in SchemasOf(spec) && '/' !in name && was == SCHEMAS + "/" + name;
    ReferencesResolve(spec, name);
    NewNameIsSlashless(name);
  }

  lemma NewNameIsSlashless(name: string)
    requires '/' !in name
    ensures '/' !in NewName(name)
  {
  }

  /** The guard on labels is needed: a title that is itself a free-form schema survives the first
      pass and falls to the second. */
  lemma UncleanTitleFallsLater(spec: Json)
    requires spec == Object(map["type" := String("object"), "title" := Object(map["type" := String("object")])])
    ensures NormaliseSpec(spec).Some? && !CleanLabels(spec)
    ensures NormaliseSpec(NormaliseSpec(spec).value) != NormaliseSpec(spec)
  {
    assert Renamed(spec) == Some(spec);
    assert "title" in Labels(spec.fields) && IsBare(spec.fields["title"].fields);
    assert !Clean(spec.fields["title"]);
    NormalisingTwice(spec);
  }
}
