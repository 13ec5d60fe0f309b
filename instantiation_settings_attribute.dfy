/**
 * SettingsAttribute (TestUnium.Instantiation.Settings): the same decision
 * table as TestUnium.Settings, but the settings type must be an ISettings,
 * the path comes from ShellHelper.TryGetArg (given here as the path it
 * returns), and the final call is PostDeserializationAction.
 */
module InstantiationSettings {
  import opened Base
  import opened CustomizationAttributes
  import opened SettingsCustomization

  /** The attribute: its class, its cancellation list and its own fields. */
  datatype SettingsAttribute = SettingsAttribute(
    kind: AttributeKind, cancellation: seq<TypeRef>, settingsType: TypeRef, loadFromFile: bool, createFileIfNotExist: bool)

  const InstantiationSettingsAttributeType := TypeRef("TestUnium.Instantiation.Settings", "SettingsAttribute")

  /** The attribute class: [TheOnly] and [Priority(Settings)], the priority value given. */
  function InstantiationSettingsKind(settingsPriority: UInt16): AttributeKind {
    AttributeKind(InstantiationSettingsAttributeType, true, true, InstantiationSettingsAttributeType, None, Some(settingsPriority))
  }

  /** The constructor: a type that is not an ISettings throws IncorrectInheritanceException. */
  function NewSettingsAttribute(u: Universe, settingsPriority: UInt16, settingsType: TypeRef,
                                loadFromFile: bool := true, createFileIfNotExist: bool := true): (r: Result<SettingsAttribute, Error>)
    ensures !IsAssignableFrom(u, ISettings, settingsType) <==> r.Failure?
    ensures r.Failure? ==> r.error == IncorrectInheritance([settingsType.name], ["SettingsBase"])
    ensures r.Success? ==> && r.value.cancellation == [NoSettingsAttribute] && r.value.settingsType == settingsType
                           && r.value.loadFromFile == loadFromFile && r.value.createFileIfNotExist == createFileIfNotExist
                           && r.value.kind.theOnly && r.value.kind.priorityAttribute == Some(settingsPriority)
  {
    if !IsAssignableFrom(u, ISettings, settingsType) then
      Failure(IncorrectInheritance([settingsType.name], ["SettingsBase"]))
    else
      Success(SettingsAttribute.SettingsAttribute(InstantiationSettingsKind(settingsPriority), [NoSettingsAttribute],
                                                  settingsType, loadFromFile, createFileIfNotExist))
  }

  /**
   * Customize(context) given the path TryGetArg returned. The cast of the
   * created instance to ISettings cannot fail for an attribute the
   * constructor accepted, so the only failure is the deserializer's.
   */
  function CustomizeSpec(a: SettingsAttribute, path: string, files: map<string, string>,
                         deserialize: (string, TypeRef) -> Result<Origin, Error>, serialize: Settings -> string): Customized
  {
    Decided(Decide(path in files, a.loadFromFile, a.createFileIfNotExist), path,
            Settings(a.settingsType, Created, 0), files, deserialize, serialize)
  }

  /**
   * Both variants customize alike: an attribute of this variant behaves as
   * the TestUnium.Settings attribute of the same type and flags whose
   * command line selects the same path, whenever that type is a SettingsBase.
   */
  lemma AgreesWithSettingsVariant(u: Universe, a: SettingsAttribute, b: SettingsCustomization.SettingsAttribute,
                                  args: seq<string>, settingsCmdArg: string, files: map<string, string>,
                                  prior: Option<Settings>,
                                  deserialize: (string, TypeRef) -> Result<Origin, Error>, serialize: Settings -> string)
    requires b.settingsType == a.settingsType && b.loadFromFile == a.loadFromFile
    requires b.createFileIfNotExist == a.createFileIfNotExist
    requires IsAssignableFrom(u, SettingsBase, a.settingsType)
    ensures CustomizeSpec(a, SettingsFilePath(args, settingsCmdArg), files, deserialize, serialize)
            == SettingsCustomization.CustomizeSpec(u, b, args, settingsCmdArg, files, prior, deserialize, serialize)
  {
  }

  /**
   * PostDeserializationAction runs exactly once whenever Customize
   * completes, and a failed deserialization leaves the created instance
   * in place without it.
   */
  lemma PostDeserializationExactlyOnce(a: SettingsAttribute, path: string, files: map<string, string>,
                                       deserialize: (string, TypeRef) -> Result<Origin, Error>, serialize: Settings -> string)
    ensures var c := CustomizeSpec(a, path, files, deserialize, serialize);
            && c.settings.Some? && c.settings.value.settingsType == a.settingsType
            && (c.outcome.Pass? <==> c.settings.value.postInitializations == 1)
            && (c.outcome.Fail? ==> c.settings.value == Settings(a.settingsType, Created, 0))
  {
  }

  /** Customize as the sequence of assignments the source makes. */
  method Customize(a: SettingsAttribute, context: SettingsDrivenTest, fs: FileSystem, settingsFilePath: string,
                   deserialize: (string, TypeRef) -> Result<Origin, Error>, serialize: Settings -> string)
    returns (outcome: Outcome<Error>)
    modifies context, fs
    ensures var c := CustomizeSpec(a, settingsFilePath, old(fs.files), deserialize, serialize);
            outcome == c.outcome && context.settings == c.settings && fs.files == c.files
  {
    context.settings := Some(Settings(a.settingsType, Created, 0));
    if settingsFilePath in fs.files {
      if a.loadFromFile {
        var loaded := deserialize(fs.files[settingsFilePath], a.settingsType);
        if loaded.Failure? {
          return Fail(loaded.error);
        }
        context.settings := Some(Settings(a.settingsType, loaded.value, 0));
      }
    } else {
      if a.createFileIfNotExist {
        context.settings := Some(Settings(context.settings.value.settingsType, Created, 0));
        fs.files := fs.files[settingsFilePath := serialize(context.settings.value)];
      }
    }
    context.settings := Some(PostInitialized(context.settings.value));
    outcome := Pass;
  }
}
