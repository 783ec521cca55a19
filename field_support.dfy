/** The inline-edit gate: from a field's metadata and its key, decide whether a table cell
    may be edited in place, how supported it is, and why not. All three answers come from
    the same first-match decision list: missing metadata, read-only flags, read-only and
    sensitive keys, image interfaces, file interfaces, then the type and interface registry. */
module FieldSupport {
  import opened Strings
  import opened Options
  import opened SupportedFields

  /** `field.type`, which may be missing or null. */
  datatype TypeValue = Undefined | Null | Given(name: string)

  /** The metadata of a field as supplied by the host. An interface name is `""` when it
      is absent, null or empty: the classifier treats all three as falsy. */
  datatype Field = Field(
    fieldType: TypeValue,
    metaInterface: string,
    interfaceName: string,
    metaReadonly: bool,
    isGenerated: bool,
    isPrimaryKey: bool,
    hasAutoIncrement: bool)

  /** `'full' | 'partial' | 'none' | 'readonly'` */
  datatype SupportLevel = FullSupport | PartialSupport | NoSupport | ReadonlySupport

  /** `field.meta?.interface || field.interface` */
  function InterfaceOf(f: Field): string {
    if f.metaInterface != "" then f.metaInterface else f.interfaceName
  }

  /** `field.type?.toLowerCase()`, with `""` for a missing, null or empty type. */
  function TypeKey(f: Field): string {
    match f.fieldType
    case Given(n) => ToLower(n)
    case _ => ""
  }

  /** `fieldType ? SUPPORTED_FIELD_TYPES[fieldType] : false` */
  function TypeSupport(f: Field): Support {
    if TypeKey(f) == "" then Unsupported else Lookup(SupportedFieldTypes(TypeKey(f)))
  }

  /** `SUPPORTED_INTERFACES[interfaceType]` */
  function InterfaceSupport(i: string): Support {
    Lookup(SupportedInterfaces(i))
  }

  /** `${field.type}` in a message. */
  function RenderType(t: TypeValue): string {
    match t
    case Undefined => "undefined"
    case Null => "null"
    case Given(n) => n
  }

  predicate IsImageInterface(i: string) {
    i == "file-image" || i == "image"
  }

  predicate IsFileInterface(i: string) {
    i == "file" || i == "files"
  }

  /** The metadata marks the field as read-only, generated, a primary key or auto-increment. */
  predicate FlaggedReadonly(f: Field) {
    f.metaReadonly || f.isGenerated || f.isPrimaryKey || f.hasAutoIncrement
  }

  /** The key is one of the fixed read-only system keys. */
  predicate ListedReadonly(key: string) {
    key != "" && key in ReadonlyFields
  }

  /** `patterns.some(p => s.includes(p))` */
  function AnyContains(s: string, patterns: seq<string>): (r: bool)
    ensures r <==> exists i :: 0 <= i < |patterns| && Contains(s, patterns[i])
  {
    if |patterns| == 0 then false
    else Contains(s, patterns[0]) || AnyContains(s, patterns[1..])
  }

  /** The lower-cased key contains a sensitive pattern. */
  predicate SensitiveKey(key: string) {
    key != "" && AnyContains(ToLower(key), SensitivePatterns)
  }

  /** One of the read-only rules fires. */
  predicate ReadonlyRule(f: Field, key: string) {
    FlaggedReadonly(f) || ListedReadonly(key) || SensitiveKey(key)
  }

  /** `isFieldEditable(field, fieldKey)`; a key of `""` stands for an absent key. */
  function IsFieldEditable(field: Option<Field>, key: string): bool {
    if field.None? then false
    else
      var f := field.value;
      if f.metaReadonly then false
      else if f.isGenerated then false
      else if f.isPrimaryKey then false
      else if f.hasAutoIncrement then false
      else if ListedReadonly(key) then false
      else if SensitiveKey(key) then false
      else
        var i := InterfaceOf(f);
        if IsImageInterface(i) then true
        else if IsFileInterface(i) then false
        else
          var t := TypeSupport(f);
          if t == Unsupported then false
          else if i == "" then t == Full
          else
            var s := InterfaceSupport(i);
            if s == Unsupported then false
            else t == Full && s == Full
  }

  const NoFieldMessage := "Field information not available"
  const SensitiveMessage := "Security-sensitive fields cannot be edited in table view"
  const FileMessage :=
    "File fields (non-image) are not supported for inline editing. Please use the item detail view."
  const NoInterfaceMessage := "No interface configured for this field"
  const TagsMessage :=
    "Tag fields have limited support (Issue #10). Complex tag operations should be done in detail view."
  const MultipleFilesMessage :=
    "Multiple file fields have limited support. Use the detail view for managing multiple files."

  /** `getFieldEditWarning(field, fieldKey)` */
  function FieldEditWarning(field: Option<Field>, key: string): string {
    if field.None? then NoFieldMessage
    else
      var f := field.value;
      if f.metaReadonly then "This field is configured as read-only"
      else if f.isGenerated then "Generated fields cannot be edited"
      else if f.isPrimaryKey then "Primary key fields cannot be edited"
      else if f.hasAutoIncrement then "Auto-increment fields cannot be edited"
      else if ListedReadonly(key) then "System field \"" + key + "\" cannot be edited"
      else if SensitiveKey(key) then SensitiveMessage
      else
        var i := InterfaceOf(f);
        if IsImageInterface(i) then ""
        else if IsFileInterface(i) then FileMessage
        else
          var t := TypeSupport(f);
          if t == Unsupported then
            "Field type \"" + RenderType(f.fieldType)
              + "\" is not yet supported for inline editing. Please use the item detail view."
          else if t == Partial then
            "Field type \"" + RenderType(f.fieldType)
              + "\" has limited support for inline editing. Some features may not work as expected."
          else if i == "" then NoInterfaceMessage
          else
            var s := InterfaceSupport(i);
            if s == Unsupported then
              "Interface \"" + i
                + "\" is not yet supported for inline editing. Please use the item detail view."
            else if s == Partial then
              if i == "tags" then TagsMessage
              else if i == "files" then MultipleFilesMessage
              else "Interface \"" + i + "\" has limited support for inline editing."
            else "This field cannot be edited inline for unknown reasons"
  }

  /** `getFieldSupportLevel(field, fieldKey)` */
  function FieldSupportLevel(field: Option<Field>, key: string): SupportLevel {
    if field.None? then NoSupport
    else
      var f := field.value;
      if FlaggedReadonly(f) || ListedReadonly(key) then ReadonlySupport
      else if SensitiveKey(key) then ReadonlySupport
      else
        var i := InterfaceOf(f);
        if IsImageInterface(i) then FullSupport
        else if IsFileInterface(i) then NoSupport
        else
          var t := TypeSupport(f);
          var s := if i != "" then InterfaceSupport(i) else Unsupported;
          if t == Unsupported || s == Unsupported then NoSupport
          else if t == Partial || s == Partial then PartialSupport
          else FullSupport
  }

  /** Missing metadata: not editable, no support, and a fixed explanation. */
  lemma NullFieldVerdicts(key: string)
    ensures !IsFieldEditable(None, key)
    ensures FieldSupportLevel(None, key) == NoSupport
    ensures FieldEditWarning(None, key) == NoFieldMessage
  {
  }

  /** The level is `readonly` exactly when a read-only rule fires, and then the field is
      not editable; these rules are checked before any interface exception. */
  lemma ReadonlyLevelIff(f: Field, key: string)
    ensures FieldSupportLevel(Some(f), key) == ReadonlySupport <==> ReadonlyRule(f, key)
    ensures ReadonlyRule(f, key) ==> !IsFieldEditable(Some(f), key)
  {
  }

  /** A sensitive key that no earlier rule catches gets the fixed security warning. */
  lemma SensitiveKeyWarning(f: Field, key: string)
    requires !FlaggedReadonly(f) && !ListedReadonly(key) && SensitiveKey(key)
    ensures FieldEditWarning(Some(f), key) == SensitiveMessage
    ensures FieldSupportLevel(Some(f), key) == ReadonlySupport
    ensures !IsFieldEditable(Some(f), key)
  {
  }

  /** An image interface makes an otherwise unrestricted field fully editable, whatever
      its declared type. */
  lemma ImageInterfaceWins(f: Field, key: string)
    requires !ReadonlyRule(f, key) && IsImageInterface(InterfaceOf(f))
    ensures IsFieldEditable(Some(f), key)
    ensures FieldSupportLevel(Some(f), key) == FullSupport
    ensures FieldEditWarning(Some(f), key) == ""
  {
  }

  /** A generic file interface is never editable, even on a supported type. */
  lemma FileInterfaceLoses(f: Field, key: string)
    requires !ReadonlyRule(f, key) && IsFileInterface(InterfaceOf(f))
    ensures !IsFieldEditable(Some(f), key)
    ensures FieldSupportLevel(Some(f), key) == NoSupport
    ensures FieldEditWarning(Some(f), key) == FileMessage
  {
  }

  /** No rule or exception applies: the registry decides. */
  predicate RegistryDecides(f: Field, key: string) {
    !ReadonlyRule(f, key) && !IsImageInterface(InterfaceOf(f)) && !IsFileInterface(InterfaceOf(f))
  }

  /** A missing, empty, unlisted or unsupported type, or an unlisted or unsupported
      interface, blocks editing with no support. */
  lemma UnsupportedTypeOrInterface(f: Field, key: string)
    requires RegistryDecides(f, key)
    requires TypeSupport(f) == Unsupported
      || (InterfaceOf(f) != "" && InterfaceSupport(InterfaceOf(f)) == Unsupported)
    ensures !IsFieldEditable(Some(f), key)
    ensures FieldSupportLevel(Some(f), key) == NoSupport
  {
  }

  /** The type is checked before the interface: an unsupported type is reported even when
      the interface is unsupported too. */
  lemma TypeReportedBeforeInterface(f: Field, key: string)
    requires RegistryDecides(f, key) && TypeSupport(f) == Unsupported
    ensures FieldEditWarning(Some(f), key) == "Field type \"" + RenderType(f.fieldType)
      + "\" is not yet supported for inline editing. Please use the item detail view."
  {
  }

  /** Type and interface both fully supported: editable with full support. */
  lemma BothFullySupported(f: Field, key: string)
    requires RegistryDecides(f, key)
    requires TypeSupport(f) == Full && InterfaceSupport(InterfaceOf(f)) == Full
    ensures IsFieldEditable(Some(f), key)
    ensures FieldSupportLevel(Some(f), key) == FullSupport
  {
    assert SupportedInterfaces("").None?;
  }

  /** Both listed, one of them partial: partial support, and not editable inline. */
  lemma PartialIsNotEditable(f: Field, key: string)
    requires RegistryDecides(f, key)
    requires TypeSupport(f) != Unsupported && InterfaceSupport(InterfaceOf(f)) != Unsupported
    requires TypeSupport(f) == Partial || InterfaceSupport(InterfaceOf(f)) == Partial
    ensures !IsFieldEditable(Some(f), key)
    ensures FieldSupportLevel(Some(f), key) == PartialSupport
  {
    assert SupportedInterfaces("").None?;
  }

  /** The one case where the two verdicts part: no rule fires, no interface is set, and
      the type is fully supported. */
  predicate InterfacelessFullType(f: Field, key: string) {
    !ReadonlyRule(f, key) && InterfaceOf(f) == "" && TypeSupport(f) == Full
  }

  /** Editable exactly when the level is full, or in the interfaceless case, whose level
      is `none`. In particular full support implies editable. */
  lemma EditableIff(field: Option<Field>, key: string)
    ensures IsFieldEditable(field, key) <==>
      FieldSupportLevel(field, key) == FullSupport
      || (field.Some? && InterfacelessFullType(field.value, key))
    ensures field.Some? && InterfacelessFullType(field.value, key) ==>
      IsFieldEditable(field, key) && FieldSupportLevel(field, key) == NoSupport
      && FieldEditWarning(field, key) == NoInterfaceMessage
    ensures FieldSupportLevel(field, key) == FullSupport ==> IsFieldEditable(field, key)
  {
    if field.Some? {
      assert SupportedInterfaces("").None?;
    }
  }

  /** The warning is empty exactly in the image case; every other verdict explains itself. */
  lemma EmptyWarningIff(field: Option<Field>, key: string)
    ensures FieldEditWarning(field, key) == "" <==>
      field.Some? && !ReadonlyRule(field.value, key) && IsImageInterface(InterfaceOf(field.value))
  {
    if field.Some? {
      var f := field.value;
      if ReadonlyRule(f, key) {
        ReadonlyWarningNonEmpty(f, key);
      } else if IsFileInterface(InterfaceOf(f)) {
        assert FieldEditWarning(field, key) == FileMessage;
      } else if !IsImageInterface(InterfaceOf(f)) {
        RegistryWarningNonEmpty(f, key);
      }
    }
  }

  /** When a read-only rule fires, the warning names it. */
  lemma ReadonlyWarningNonEmpty(f: Field, key: string)
    requires ReadonlyRule(f, key)
    ensures FieldEditWarning(Some(f), key) != ""
  {
    if !FlaggedReadonly(f) && ListedReadonly(key) {
      var w := FieldEditWarning(Some(f), key);
      assert w == "System field \"" + key + "\" cannot be edited";
      assert |w| > 0;
    }
  }

  /** Past the read-only rules, every verdict but the image one explains itself. */
  lemma RegistryWarningNonEmpty(f: Field, key: string)
    requires RegistryDecides(f, key)
    ensures FieldEditWarning(Some(f), key) != ""
  {
    var w := FieldEditWarning(Some(f), key);
    var i := InterfaceOf(f);
    var t := TypeSupport(f);
    if t == Unsupported || t == Partial {
      assert |w| > |RenderType(f.fieldType)|;
    } else if i != "" && InterfaceSupport(i) != Full && i != "tags" && i != "files" {
      assert |w| > |i|;
    }
  }

  /** `'files'` is caught as a file interface before the partial-interface messages, and the
      only partially supported interface is `tags`; so the message for multiple files and
      the generic partial-interface message are never produced. */
  lemma MultipleFilesMessageUnreachable(f: Field, key: string)
    ensures !ReadonlyRule(f, key) && InterfaceOf(f) == "files" ==>
      FieldEditWarning(Some(f), key) == FileMessage
    ensures (RegistryDecides(f, key) && TypeSupport(f) == Full && InterfaceOf(f) != ""
             && InterfaceSupport(InterfaceOf(f)) == Partial) ==>
      FieldEditWarning(Some(f), key) == TagsMessage
  {
    PartialInterfaces(InterfaceOf(f));
  }

  /** A key whose lower-cased form contains the `j`-th sensitive pattern at position `i`
      is sensitive. */
  lemma SensitiveBecause(key: string, j: nat, i: nat)
    requires key != "" && j < |SensitivePatterns|
    requires OccursAt(ToLower(key), SensitivePatterns[j], i)
    ensures SensitiveKey(key)
  {
    ContainsAt(ToLower(key), SensitivePatterns[j]);
  }

  /** A field with the given type and interface and no read-only flag. */
  function Plain(t: string, i: string): Field {
    Field(Given(t), i, "", false, false, false, false)
  }

  /** `uuid` is only partial, but with an image interface the field is fully editable. */
  lemma UuidImageIsFull()
    ensures IsFieldEditable(Some(Plain("uuid", "file-image")), "")
    ensures FieldSupportLevel(Some(Plain("uuid", "file-image")), "") == FullSupport
    ensures FieldEditWarning(Some(Plain("uuid", "file-image")), "") == ""
  {
  }

  /** `uuid` with a generic file interface is not editable. */
  lemma UuidFileIsNone()
    ensures !IsFieldEditable(Some(Plain("uuid", "file")), "")
    ensures FieldSupportLevel(Some(Plain("uuid", "file")), "") == NoSupport
  {
  }

  /** Keys containing `password`, `key` or `secret` are read-only, whatever the type. */
  lemma PasswordIsReadonly()
    ensures !IsFieldEditable(Some(Plain("string", "")), "password")
    ensures FieldEditWarning(Some(Plain("string", "")), "password") == SensitiveMessage
  {
    assert ToLower("password") == "password";
    SensitiveBecause("password", 0, 0);
  }

  lemma ApiKeyIsReadonly()
    ensures !IsFieldEditable(Some(Plain("string", "")), "api_key")
    ensures FieldSupportLevel(Some(Plain("string", "")), "api_key") == ReadonlySupport
  {
    assert ToLower("api_key") == "api_key";
    SensitiveBecause("api_key", 3, 4);
  }

  lemma SecretTokenIsReadonly()
    ensures !IsFieldEditable(Some(Plain("string", "")), "secret_token")
  {
    assert ToLower("secret_token") == "secret_token";
    SensitiveBecause("secret_token", 1, 0);
  }

  /** `geometry` and `unknown` types are unsupported. */
  lemma GeometryAndUnknownAreNone()
    ensures !IsFieldEditable(Some(Plain("geometry", "")), "")
    ensures FieldSupportLevel(Some(Plain("geometry", "")), "") == NoSupport
    ensures !IsFieldEditable(Some(Plain("unknown", "")), "")
    ensures FieldSupportLevel(Some(Plain("unknown", "")), "") == NoSupport
  {
    ToLowerFacts("geometry");
    assert TypeKey(Plain("geometry", "")) == "geometry";
    ToLowerFacts("unknown");
    assert TypeKey(Plain("unknown", "")) == "unknown";
  }

  /** The registry lists `bigInteger` as fully supported, but the lower-cased lookup key
      `biginteger` is not listed, so such a field is reported as unsupported. */
  lemma BigIntegerReportedUnsupported()
    ensures SupportedFieldTypes("bigInteger") == Some(Full)
    ensures !IsFieldEditable(Some(Plain("bigInteger", "input")), "")
    ensures FieldSupportLevel(Some(Plain("bigInteger", "input")), "") == NoSupport
  {
    var f := Plain("bigInteger", "input");
    assert TypeKey(f) == "biginteger";
  }

  /** `dateTime` still works, through the separate lower-case `datetime` entry. */
  lemma DateTimeStillSupported()
    ensures IsFieldEditable(Some(Plain("dateTime", "datetime")), "")
    ensures FieldSupportLevel(Some(Plain("dateTime", "datetime")), "") == FullSupport
  {
    var f := Plain("dateTime", "datetime");
    assert TypeKey(f) == "datetime";
  }
}
