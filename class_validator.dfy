/**
 * The part of class-validator the request DTOs use: a request body is a map
 * from property name to JSON value, each DTO property carries a list of
 * decorators, and `@IsOptional()` skips the others when the value is null or
 * undefined. The UUID grammar is not modelled: `isUuid` stands for it.
 */
module ClassValidator {
  import opened Common

  /** A JSON value as far as the decorators can tell values apart. */
  datatype Json = JNull | JBool(b: bool) | JNumber | JString(s: string) | JArray | JObject

  /** A parsed request body; a property that is not a key is undefined. */
  type Body = map<string, Json>

  datatype Decorator =
    | IsNotEmpty
    | IsString
    | IsBoolean
    | IsUuid
    | MinLength(min: nat)
    | MaxLength(max: nat)
    | IsEnum(values: seq<string>)

  /** A declared DTO property: its name, whether it is `@IsOptional()`, its other decorators. */
  datatype Property = Property(name: string, optional: bool, decorators: seq<Decorator>)

  function Lookup(b: Body, name: string): Option<Json> {
    if name in b then Some(b[name]) else None
  }

  /** null or undefined: what `@IsOptional()` lets through. */
  predicate Missing(v: Option<Json>) {
    v == None || v == Some(JNull)
  }

  predicate IsStringValue(v: Option<Json>) {
    v.Some? && v.value.JString?
  }

  /** Whether one decorator accepts the value of its property. */
  predicate Passes(d: Decorator, v: Option<Json>, isUuid: string -> bool) {
    match d
    case IsNotEmpty => !Missing(v) && v != Some(JString(""))
    case IsString => IsStringValue(v)
    case IsBoolean => v.Some? && v.value.JBool?
    case IsUuid => IsStringValue(v) && isUuid(v.value.s)
    case MinLength(n) => IsStringValue(v) && |v.value.s| >= n
    case MaxLength(n) => IsStringValue(v) && |v.value.s| <= n
    case IsEnum(values) => IsStringValue(v) && v.value.s in values
  }

  predicate PropertyValid(p: Property, b: Body, isUuid: string -> bool) {
    var v := Lookup(b, p.name);
    (p.optional && Missing(v)) || forall d :: d in p.decorators ==> Passes(d, v, isUuid)
  }

  /** The body passes validation against the DTO's declared properties; undeclared properties are ignored. */
  predicate Validates(schema: seq<Property>, b: Body, isUuid: string -> bool) {
    forall p :: p in schema ==> PropertyValid(p, b, isUuid)
  }

  /** The body carries a string of length `lo..hi` under `name`. */
  predicate StringIn(b: Body, name: string, lo: nat, hi: nat) {
    name in b && b[name].JString? && lo <= |b[name].s| <= hi
  }

  /** The property is absent or null, or a string of length at most `hi`. */
  predicate OptionalStringUpTo(b: Body, name: string, hi: nat) {
    name in b ==> b[name].JNull? || (b[name].JString? && |b[name].s| <= hi)
  }

  /** The body carries a non-empty UUID string under `name`. */
  predicate UuidAt(b: Body, name: string, isUuid: string -> bool) {
    name in b && b[name].JString? && b[name].s != "" && isUuid(b[name].s)
  }

  /** A present string-valued property as an option; null and other types read as absent. */
  function OptionalString(b: Body, name: string): Option<string> {
    if name in b && b[name].JString? then Some(b[name].s) else None
  }

  /** `@IsNotEmpty() @IsUUID()` on a required property: a non-empty UUID string. */
  lemma RequiredUuidMeaning(name: string, b: Body, isUuid: string -> bool)
    ensures PropertyValid(Property(name, false, [IsNotEmpty, IsUuid]), b, isUuid) <==> UuidAt(b, name, isUuid)
  {
    var ds := [IsNotEmpty, IsUuid];
    assert forall d :: d in ds <==> d == IsNotEmpty || d == IsUuid;
    assert IsNotEmpty in ds && IsUuid in ds;
  }

  /** A schema passes exactly when each of its properties does. */
  lemma ValidatesEach(schema: seq<Property>, b: Body, isUuid: string -> bool)
    ensures Validates(schema, b, isUuid) <==> forall i :: 0 <= i < |schema| ==> PropertyValid(schema[i], b, isUuid)
  {
    if Validates(schema, b, isUuid) {
      forall i | 0 <= i < |schema|
        ensures PropertyValid(schema[i], b, isUuid)
      {
        assert schema[i] in schema;
      }
    }
  }
}
