/**
 * SettingsAttribute (TestUnium.Settings): gives a SettingsDrivenTest its
 * Settings object. The object is a fresh instance of the configured type,
 * or the one deserialized from the settings file when that file exists and
 * loading is on; a missing file is created on request. The file system, the
 * command line and JSON (de)serialization are parameters.
 */
module SettingsCustomization {
  import opened Base
  import opened CommandLine
  import opened CustomizationAttributes

  /** Where a settings object came from: Activator.CreateInstance, or JSON text deserialized. */
  datatype Origin = Created | Deserialized(json: string)

  /** A settings object: its type, its origin, and how often its post-initialization action ran. */
  datatype Settings = Settings(settingsType: TypeRef, origin: Origin, postInitializations: nat)

  /** The file system: file contents by path. */
  class FileSystem {
    var files: map<string, string>

    constructor(files: map<string, string>)
      ensures this.files == files
    {
      this.files := files;
    }
  }

  /** The test being customized: its Settings property, null at first. */
  class SettingsDrivenTest {
    var settings: Option<Settings>

    constructor()
      ensures settings == None
    {
      settings := None;
    }
  }

  /** What Customize does, by whether the file exists and the two flags. */
  datatype Decision = UseFresh | Load | CreateFile

  /** The decision table of Customize. */
  function Decide(fileExists: bool, loadFromFile: bool, createFileIfNotExist: bool): Decision {
    if fileExists then (if loadFromFile then Load else UseFresh)
    else (if createFileIfNotExist then CreateFile else UseFresh)
  }

  /**
   * The file is read only when it exists and loading is on; it is written
   * only when it is missing and creation is on; otherwise a fresh instance
   * is used and the file system is left alone.
   */
  lemma DecisionTable(fileExists: bool, loadFromFile: bool, createFileIfNotExist: bool)
    ensures Decide(fileExists, loadFromFile, createFileIfNotExist) == Load <==> fileExists && loadFromFile
    ensures Decide(fileExists, loadFromFile, createFileIfNotExist) == CreateFile <==> !fileExists && createFileIfNotExist
    ensures Decide(fileExists, loadFromFile, createFileIfNotExist) == UseFresh <==>
              (fileExists && !loadFromFile) || (!fileExists && !createFileIfNotExist)
  {
  }

  const DefaultSettingsFile := "settings.json"

  /**
   * The settings path: the argument after the settings flag when the flag
   * occurs before the last argument; otherwise "settings.json".
   */
  function SettingsFilePath(args: seq<string>, settingsCmdArg: string): (path: string)
    ensures (forall i :: 0 <= i < |args| - 1 ==> args[i] != settingsCmdArg) ==> path == DefaultSettingsFile
    ensures forall i :: 0 <= i < |args| - 1 && args[i] == settingsCmdArg && settingsCmdArg !in args[..i] ==> path == args[i + 1]
  {
    ArgAfter(args, settingsCmdArg).GetOr(DefaultSettingsFile)
  }

  /** The attribute's own fields beside those of a customization attribute. */
  datatype SettingsAttribute = SettingsAttribute(
    base: Attribute, settingsType: TypeRef, loadFromFile: bool, createFileIfNotExist: bool)

  const SettingsAttributeType := TypeRef("TestUnium.Settings", "SettingsAttribute")

  /**
   * The attribute class: an ICustomizer, [TheOnly], and [Priority(Settings)];
   * the value of CustomizationAttributePriorities.Settings is given.
   */
  function SettingsKind(settingsPriority: UInt16): AttributeKind {
    AttributeKind(SettingsAttributeType, true, true, SettingsAttributeType, None, Some(settingsPriority))
  }

  /**
   * The constructor: the settings type must be an ISettingsSource; the
   * attribute targets SettingsDrivenTest and is cancelled by
   * NoSettingsAttribute (given as an array, not a List<Type>).
   */
  function NewSettingsAttribute(u: Universe, settingsPriority: UInt16, settingsType: TypeRef,
                                loadFromFile: bool := true, createFileIfNotExist: bool := true): (r: Result<SettingsAttribute, Error>)
    ensures !IsAssignableFrom(u, ISettingsSource, settingsType) <==> r.Failure?
    ensures r.Failure? ==> r.error == IncorrectCustomizationSourceType(settingsType.name, "SettingsBase")
    ensures r.Success? ==> && r.value.settingsType == settingsType
                           && r.value.loadFromFile == loadFromFile && r.value.createFileIfNotExist == createFileIfNotExist
                           && r.value.base.target == Base.SettingsDrivenTest && r.value.base.cancellation == [NoSettingsAttribute]
                           && r.value.base.kind.theOnly && r.value.base.priority == settingsPriority && r.value.base.visible
  {
    if !IsAssignableFrom(u, ISettingsSource, settingsType) then
      Failure(IncorrectCustomizationSourceType(settingsType.name, "SettingsBase"))
    else
      Success(SettingsAttribute(NewCustomizationAttribute(SettingsKind(settingsPriority), Base.SettingsDrivenTest, [NoSettingsAttribute], false, 0),
                                settingsType, loadFromFile, createFileIfNotExist))
  }

  /**
   * The cancellation collection is an array, so the `as List<Type>` cast in
   * CheckCancellationClause yields null: the clause visits no item, even
   * with the match fixed, while the attribute does name NoSettingsAttribute.
   */
  lemma ArrayCancellationIsIgnored(u: Universe, settingsPriority: UInt16, settingsType: TypeRef)
    requires NewSettingsAttribute(u, settingsPriority, settingsType).Success?
    ensures var a := NewSettingsAttribute(u, settingsPriority, settingsType).value.base;
            CancellationItems(a) == [] && CancelledBy(a, [NoSettingsAttribute])
  {
    var a := NewSettingsAttribute(u, settingsPriority, settingsType).value.base;
    assert NameInvoked(a.cancellation[0], [NoSettingsAttribute]);
  }

  /**
   * With the corrected clause, which reads the collection whatever its
   * runtime type, the attribute is cancelled exactly when a type named
   * NoSettingsAttribute was invoked.
   */
  lemma CorrectedClauseCancelsSettingsAttribute(u: Universe, settingsPriority: UInt16, settingsType: TypeRef,
                                                invocationList: seq<TypeRef>)
    requires NewSettingsAttribute(u, settingsPriority, settingsType).Success?
    ensures var a := NewSettingsAttribute(u, settingsPriority, settingsType).value.base;
            CancelledBy(a, invocationList) <==>
              exists i :: 0 <= i < |invocationList| && invocationList[i].name == NoSettingsAttribute.name
  {
    var a := NewSettingsAttribute(u, settingsPriority, settingsType).value.base;
    if exists i :: 0 <= i < |invocationList| && invocationList[i].name == NoSettingsAttribute.name {
      assert NameInvoked(a.cancellation[0], invocationList);
    }
  }

  /** A settings object gets its post-initialization call. */
  function PostInitialized(s: Settings): Settings {
    s.(postInitializations := s.postInitializations + 1)
  }

  /** What Customize leaves: the outcome, the test's Settings and the files. */
  datatype Customized = Customized(outcome: Outcome<Error>, settings: Option<Settings>, files: map<string, string>)

  /**
   * Customize with the file at `path` and the decision made. `initial` is the
   * instance created first; `deserialize` is JsonConvert.DeserializeObject,
   * `serialize` JsonConvert.SerializeObject.
   */
  function Decided(decision: Decision, path: string, initial: Settings, files: map<string, string>,
                   deserialize: (string, TypeRef) -> Result<Origin, Error>, serialize: Settings -> string): Customized
    requires decision == Load ==> path in files
  {
    match decision
    case UseFresh => Customized(Pass, Some(PostInitialized(initial)), files)
    case Load =>
      (match deserialize(files[path], initial.settingsType)
       case Failure(e) => Customized(Fail(e), Some(initial), files)
       case Success(origin) => Customized(Pass, Some(PostInitialized(Settings(initial.settingsType, origin, 0))), files))
    case CreateFile =>
      var created := Settings(initial.settingsType, Created, 0);
      Customized(Pass, Some(PostInitialized(created)), files[path := serialize(created)])
  }

  /**
   * Customize(context). Creating the instance casts it to SettingsBase,
   * which throws InvalidCastException for an ISettingsSource that is not a
   * SettingsBase; the test's Settings is then left as it was.
   */
  function CustomizeSpec(u: Universe, a: SettingsAttribute, args: seq<string>, settingsCmdArg: string,
                         files: map<string, string>, prior: Option<Settings>,
                         deserialize: (string, TypeRef) -> Result<Origin, Error>, serialize: Settings -> string): Customized
  {
    if !IsAssignableFrom(u, SettingsBase, a.settingsType) then
      Customized(Fail(InvalidCast(a.settingsType.name, "SettingsBase")), prior, files)
    else
      var path := SettingsFilePath(args, settingsCmdArg);
      Decided(Decide(path in files, a.loadFromFile, a.createFileIfNotExist), path,
              Settings(a.settingsType, Created, 0), files, deserialize, serialize)
  }

  /** Whenever Customize completes, the final settings object had its post-initialization action run exactly once. */
  lemma PostInitializationExactlyOnce(u: Universe, a: SettingsAttribute, args: seq<string>, settingsCmdArg: string,
                                      files: map<string, string>, prior: Option<Settings>,
                                      deserialize: (string, TypeRef) -> Result<Origin, Error>, serialize: Settings -> string)
    ensures var c := CustomizeSpec(u, a, args, settingsCmdArg, files, prior, deserialize, serialize);
            c.outcome.Pass? ==> c.settings.Some? && c.settings.value.postInitializations == 1
                                && c.settings.value.settingsType == a.settingsType
  {
  }

  /**
   * Only a missing file with creation on writes anything, and then exactly
   * the new instance's JSON at the chosen path.
   */
  lemma FileWrittenOnlyWhenMissing(u: Universe, a: SettingsAttribute, args: seq<string>, settingsCmdArg: string,
                                   files: map<string, string>, prior: Option<Settings>,
                                   deserialize: (string, TypeRef) -> Result<Origin, Error>, serialize: Settings -> string)
    ensures var c := CustomizeSpec(u, a, args, settingsCmdArg, files, prior, deserialize, serialize);
            var path := SettingsFilePath(args, settingsCmdArg);
            && (c.files != files ==> path !in files && a.createFileIfNotExist)
            && (IsAssignableFrom(u, SettingsBase, a.settingsType) && path !in files && a.createFileIfNotExist ==>
                  c.files == files[path := serialize(Settings(a.settingsType, Created, 0))])
  {
  }

  /** An existing file with loading on yields exactly what deserialization yields. */
  lemma LoadedFromExistingFile(u: Universe, a: SettingsAttribute, args: seq<string>, settingsCmdArg: string,
                               files: map<string, string>, prior: Option<Settings>,
                               deserialize: (string, TypeRef) -> Result<Origin, Error>, serialize: Settings -> string)
    requires IsAssignableFrom(u, SettingsBase, a.settingsType) && a.loadFromFile
    requires SettingsFilePath(args, settingsCmdArg) in files
    requires deserialize(files[SettingsFilePath(args, settingsCmdArg)], a.settingsType).Success?
    ensures var c := CustomizeSpec(u, a, args, settingsCmdArg, files, prior, deserialize, serialize);
            c == Customized(Pass, Some(Settings(a.settingsType,
                                                deserialize(files[SettingsFilePath(args, settingsCmdArg)], a.settingsType).value, 1)),
                            files)
  {
  }

  /** Customize as the sequence of assignments the source makes. */
  method Customize(u: Universe, a: SettingsAttribute, context: SettingsDrivenTest, fs: FileSystem,
                   args: seq<string>, settingsCmdArg: string,
                   deserialize: (string, TypeRef) -> Result<Origin, Error>, serialize: Settings -> string)
    returns (outcome: Outcome<Error>)
    modifies context, fs
    ensures var c := CustomizeSpec(u, a, args, settingsCmdArg, old(fs.files), old(context.settings), deserialize, serialize);
            outcome == c.outcome && context.settings == c.settings && fs.files == c.files
  {
    if !IsAssignableFrom(u, SettingsBase, a.settingsType) {
      return Fail(InvalidCast(a.settingsType.name, "SettingsBase"));
    }
    context.settings := Some(Settings(a.settingsType, Created, 0));
    var pos := IndexOf(args, settingsCmdArg);
    var settingsFilePath := if pos != -1 && pos < |args| - 1 then args[pos + 1] else DefaultSettingsFile;
    if settingsFilePath in fs.files {
      if a.loadFromFile {
        var loaded := deserialize(fs.files[settingsFilePath], a.settingsType);
        if loaded.Failure? {
          return Fail(loaded.error);
        }
        context.settings := Some(Settings(a.settingsType, loaded.value, 0));
      }
    } else {
      if a.createFileIfNotExist {
        context.settings := Some(Settings(context.settings.value.settingsType, Created, 0));
        fs.files := fs.files[settingsFilePath := serialize(context.settings.value)];
      }
    }
    context.settings := Some(PostInitialized(context.settings.value));
    outcome := Pass;
  }
}
