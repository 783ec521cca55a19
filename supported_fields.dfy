/** The registry of field types and interfaces that may be edited inline, and the
    name-based rules that keep system and security-sensitive fields read-only. */
module SupportedFields {
  import opened Strings
  import opened Options

  /** A registry entry: `true`, `'partial'` or `false`. */
  datatype Support = Full | Partial | Unsupported

  /** `SUPPORTED_FIELD_TYPES[name]`: support by field type; `None` for a name the registry does not list. */
  function SupportedFieldTypes(name: string): Option<Support> {
    match name
    case "string" => Some(Full)
    case "text" => Some(Full)
    case "integer" => Some(Full)
    case "bigInteger" => Some(Full)
    case "float" => Some(Full)
    case "decimal" => Some(Full)
    case "boolean" => Some(Full)
    case "json" => Some(Partial)
    case "date" => Some(Full)
    case "dateTime" => Some(Full)
    case "datetime" => Some(Full)
    case "time" => Some(Full)
    case "timestamp" => Some(Full)
    case "uuid" => Some(Partial)
    case "hash" => Some(Unsupported)
    case "csv" => Some(Unsupported)
    case "geometry" => Some(Unsupported)
    case "geometryPoint" => Some(Unsupported)
    case "geometryLineString" => Some(Unsupported)
    case "geometryPolygon" => Some(Unsupported)
    case "geometryMultiPoint" => Some(Unsupported)
    case "geometryMultiLineString" => Some(Unsupported)
    case "geometryMultiPolygon" => Some(Unsupported)
    case "alias" => Some(Unsupported)
    case "unknown" => Some(Unsupported)
    case _ => None
  }

  /** `SUPPORTED_INTERFACES[name]`: support by interface; `None` for a name the registry does not list. */
  function SupportedInterfaces(name: string): Option<Support> {
    match name
    case "input" => Some(Full)
    case "input-email" => Some(Full)
    case "input-url" => Some(Full)
    case "textarea" => Some(Full)
    case "input-rich-text-html" => Some(Full)
    case "input-rich-text-md" => Some(Full)
    case "wysiwyg" => Some(Full)
    case "select-dropdown" => Some(Full)
    case "select-radio" => Some(Full)
    case "boolean" => Some(Full)
    case "toggle" => Some(Full)
    case "input-number" => Some(Full)
    case "slider" => Some(Full)
    case "file-image" => Some(Full)
    case "image" => Some(Full)
    case "file" => Some(Unsupported)
    case "files" => Some(Unsupported)
    case "tags" => Some(Partial)
    case "datetime" => Some(Full)
    case "date" => Some(Full)
    case "time" => Some(Full)
    case "timestamp" => Some(Full)
    case "select-color" => Some(Full)
    case "color" => Some(Full)
    case "input-color" => Some(Unsupported)
    case "many-to-one" => Some(Unsupported)
    case "one-to-many" => Some(Unsupported)
    case "many-to-many" => Some(Unsupported)
    case "many-to-any" => Some(Unsupported)
    case "list-m2m" => Some(Unsupported)
    case "list-o2m" => Some(Unsupported)
    case "list-m2a" => Some(Unsupported)
    case "translations" => Some(Unsupported)
    case "select-multiple-dropdown" => Some(Unsupported)
    case "select-multiple-checkbox" => Some(Unsupported)
    case "input-hash" => Some(Unsupported)
    case "input-password" => Some(Unsupported)
    case "map" => Some(Unsupported)
    case "map-point" => Some(Unsupported)
    case "presentation-links" => Some(Unsupported)
    case "presentation-divider" => Some(Unsupported)
    case "presentation-notice" => Some(Unsupported)
    case "input-code" => Some(Unsupported)
    case "input-multiline" => Some(Unsupported)
    case "list" => Some(Unsupported)
    case "repeater" => Some(Unsupported)
    case "group-standard" => Some(Unsupported)
    case "group-accordion" => Some(Unsupported)
    case "group-detail" => Some(Unsupported)
    case "input-autocomplete-api" => Some(Unsupported)
    case _ => None
  }

  /** Keys that are never editable, whatever their type. */
  const ReadonlyFields: seq<string> :=
    ["id", "date_created", "date_updated", "user_created", "user_updated"]

  /** Substrings of a lower-cased key that mark it as security-sensitive. */
  const SensitivePatterns: seq<string> := ["password", "secret", "token", "key", "hash", "salt"]

  /** System fields listed beside the rules; the classifier does not consult them. */
  const SystemFields: seq<string> := ["sort", "$thumbnail"]

  /** A registry lookup; a missing name reads as `undefined`, which every caller treats
      like `false`. */
  function Lookup(entry: Option<Support>): (s: Support)
    ensures entry.None? ==> s == Unsupported
    ensures entry.Some? ==> s == entry.value
  {
    entry.GetOr(Unsupported)
  }

  /** The only partially supported types are `json` and `uuid`. */
  lemma PartialTypes(t: string)
    ensures Lookup(SupportedFieldTypes(t)) == Partial <==> t == "json" || t == "uuid"
  {
  }

  /** The only partially supported interface is `tags`. */
  lemma PartialInterfaces(i: string)
    ensures Lookup(SupportedInterfaces(i)) == Partial <==> i == "tags"
  {
  }

  /** Image interfaces are supported, generic file interfaces are not. */
  lemma FileAndImageInterfaces()
    ensures SupportedInterfaces("file") == Some(Unsupported)
    ensures SupportedInterfaces("files") == Some(Unsupported)
    ensures SupportedInterfaces("file-image") == Some(Full)
    ensures SupportedInterfaces("image") == Some(Full)
  {
  }

  /** Hashes, aliases, unknown types and every geometry type are unsupported. */
  lemma UnsupportedTypes(t: string)
    requires t == "hash" || t == "alias" || t == "unknown" || StartsWith(t, "geometry")
    ensures Lookup(SupportedFieldTypes(t)) == Unsupported
  {
    if StartsWith(t, "geometry") {
      assert t[0] == "geometry"[0] == 'g';
    }

  }

  /** Every sensitive pattern is lower case, so matching it against a lower-cased key is
      a case-insensitive match. */
  lemma SensitivePatternsAreLower()
    ensures forall i :: 0 <= i < |SensitivePatterns| ==> IsLower(SensitivePatterns[i])
  {
  }

  /** The type keys written in camel case. */
  const CamelCaseTypeKeys: seq<string> := [
    "bigInteger", "dateTime", "geometryPoint", "geometryLineString", "geometryPolygon",
    "geometryMultiPoint", "geometryMultiLineString", "geometryMultiPolygon"]

  /** The camel-case type keys are exactly the type keys that are not lower case. */
  lemma CamelCaseTypeKeysAreTheMixedCaseOnes(k: string)
    requires SupportedFieldTypes(k).Some?
    ensures !IsLower(k) <==> k in CamelCaseTypeKeys
  {
    if k in CamelCaseTypeKeys {
      if k == "bigInteger" { assert k[3] == 'I'; }
      else if k == "dateTime" { assert k[4] == 'T'; }
      else { assert k[8] == 'P' || k[8] == 'L' || k[8] == 'M'; }
    }
  }

  /** A lookup key produced by lower-casing never equals a camel-case key, so those
      registry entries can never be reached. */
  lemma CamelCaseKeysUnreachable(t: string, k: string)
    requires SupportedFieldTypes(k).Some? && k in CamelCaseTypeKeys
    ensures ToLower(t) != k
  {
    ToLowerFacts(t);
    CamelCaseTypeKeysAreTheMixedCaseOnes(k);
  }
}
