/** The plugin editor of the Glewlwyd administration page: the validation a
    "modValid" message triggers before a plugin is saved, and the merge of an
    imported plugin record into the one being edited.

    The remote existence query is modelled by its reply, given as an input;
    the callback the parent component passes, the notifications sent and the
    names queried are logged. */
module PluginEdit {
  import opened Wrappers
  import opened JsonModel

  /** A plugin record; `moduleName` is the record's `module`, its plugin
      type. An absent `name`, `module` or `display_name` is the empty string;
      the parameters are whatever JSON the plugin type uses. */
  datatype Plugin = Plugin(name: string, moduleName: string, displayName: string, parameters: Json)

  // ---------------------------------------------------------------------------
  // Validation on "modValid"

  /** What the local checks of the "modValid" handler decide. */
  datatype Verdict =
    | MissingName      // adding without a name: name-mandatory error
    | MissingType      // no plugin type: type-mandatory error
    | CheckExistence   // adding: query whether the name is taken
    | Accept           // editing: hand the record to the callback at once
    | Withheld         // the parameters editor reports invalid parameters

  /** The order of the checks: the name (when adding), then the type, then
      the parameters. */
  function LocalVerdict(add: bool, mod: Plugin, parametersValid: bool): (v: Verdict)
    ensures v == MissingName <==> add && mod.name == ""
    ensures v == MissingType <==> !(add && mod.name == "") && mod.moduleName == ""
    ensures v == Withheld <==> !(add && mod.name == "") && mod.moduleName != "" && !parametersValid
    ensures v == CheckExistence <==> add && mod.name != "" && mod.moduleName != "" && parametersValid
    ensures v == Accept <==> !add && mod.moduleName != "" && parametersValid
  {
    if add && mod.name == "" then MissingName
    else if mod.moduleName == "" then MissingType
    else if parametersValid then (if add then CheckExistence else Accept)
    else Withheld
  }

  /** The reply to `GET /mod/plugin/<name>`: the plugin exists, a 404, or any
      other failure. */
  datatype ExistenceReply = Found | NotFound | OtherFailure

  /** The record reaches the callback: all local checks pass and, when
      adding, the name is not taken. */
  predicate Accepted(add: bool, mod: Plugin, parametersValid: bool, existence: ExistenceReply) {
    var v := LocalVerdict(add, mod, parametersValid);
    v == Accept || (v == CheckExistence && existence == NotFound)
  }

  /** The editor flags an error: a local check failed or the name is taken. */
  predicate Flagged(add: bool, mod: Plugin, parametersValid: bool, existence: ExistenceReply) {
    var v := LocalVerdict(add, mod, parametersValid);
    v == MissingName || v == MissingType || (v == CheckExistence && existence == Found)
  }

  /** Acceptance in plain terms: a type is chosen, the parameters are valid,
      and when adding, the name is given and free. Editing never asks the
      server, and an accepted record is never flagged. */
  lemma AcceptedIff(add: bool, mod: Plugin, parametersValid: bool, existence: ExistenceReply)
    ensures Accepted(add, mod, parametersValid, existence) <==>
              mod.moduleName != "" && parametersValid && (add ==> mod.name != "" && existence == NotFound)
    ensures !add ==> (Accepted(add, mod, parametersValid, existence) <==> mod.moduleName != "" && parametersValid)
    ensures !(Accepted(add, mod, parametersValid, existence) && Flagged(add, mod, parametersValid, existence))
  {
  }

  // ---------------------------------------------------------------------------
  // Import

  /** The record `getImportPlugin` stores: when editing, the current
      non-empty `name` and `moduleName` override the imported ones; when adding,
      the imported record is taken as it is. */
  function MergeImport(add: bool, current: Plugin, imported: Plugin): (r: Plugin)
    ensures r.(name := imported.name, moduleName := imported.moduleName) == imported
    ensures r.name == imported.name || r.name == current.name
    ensures r.moduleName == imported.moduleName || r.moduleName == current.moduleName
  {
    if add then imported
    else imported.(name := if current.name != "" then current.name else imported.name,
                   moduleName := if current.moduleName != "" then current.moduleName else imported.moduleName)
  }

  /** What an import keeps: while editing, the plugin's identity (a non-empty
      name and type) survives, everything else comes from the file; while
      adding, the file replaces the record. */
  lemma MergeImportKeeps(add: bool, current: Plugin, imported: Plugin)
    ensures var r := MergeImport(add, current, imported);
      && (add ==> r == imported)
      && (!add && current.name != "" ==> r.name == current.name)
      && (!add && current.moduleName != "" ==> r.moduleName == current.moduleName)
      && (!add && current.name == "" ==> r.name == imported.name)
      && (!add && current.moduleName == "" ==> r.moduleName == imported.moduleName)
      && r.displayName == imported.displayName && r.parameters == imported.parameters
  {
  }

  /** Importing the same file twice gives the same record as importing it
      once, and importing the record being edited changes nothing. */
  lemma MergeImportIdempotent(add: bool, current: Plugin, imported: Plugin)
    ensures MergeImport(add, MergeImport(add, current, imported), imported) == MergeImport(add, current, imported)
    ensures MergeImport(add, current, current) == current
  {
  }

  /** An import while editing a plugin that has a type never makes the record
      fail the name or type check. */
  lemma EditedImportStaysValid(current: Plugin, imported: Plugin, parametersValid: bool)
    requires current.moduleName != ""
    ensures var v := LocalVerdict(false, MergeImport(false, current, imported), parametersValid);
      v != MissingName && v != MissingType
  {
  }

  // ---------------------------------------------------------------------------
  // The editor's state and handlers

  /** Messages of the "ModPlugin" channel. */
  datatype ModPluginMessage = ModValid | ModInvalid | OtherMessage

  /** The name error shown: the name is mandatory, or already taken. */
  datatype NameError = NameMandatory | NameExists

  /** The translated notifications the editor sends, as tags. */
  datatype Notice = ErrorApiConnect | ImportError

  /** A call of the parent's callback: `callback(true, mod)` or
      `callback(false)`. */
  datatype CallbackCall = Confirmed(mod: Plugin) | Cancelled

  class PluginEditor {
    var mod: Plugin
    var add: bool
    /** The parent passed a callback. */
    var hasCallback: bool
    var parametersValid: bool
    var nameInvalid: bool
    var nameInvalidMessage: Option<NameError>
    var typeInvalidMessage: bool
    var hasError: bool
    /** The `check` flag that asks the embedded parameters editor to validate. */
    var check: bool

    /** Calls of the parent's callback, in order. */
    var callbacks: seq<CallbackCall>
    /** Notifications sent, in order. */
    var sent: seq<Notice>
    /** Names whose existence was queried, in order. */
    var queried: seq<string>

    constructor (initial: Plugin, adding: bool, callbackGiven: bool)
      ensures mod == initial && add == adding && hasCallback == callbackGiven
      ensures parametersValid && !nameInvalid && nameInvalidMessage.None? && !typeInvalidMessage && !hasError
      ensures !check
      ensures callbacks == [] && sent == [] && queried == []
    {
      mod, add, hasCallback := initial, adding, callbackGiven;
      parametersValid, nameInvalid, nameInvalidMessage, typeInvalidMessage, hasError := true, false, None, false, false;
      check := false;
      callbacks, sent, queried := [], [], [];
    }

    /** The "ModPlugin" subscriber. `existence` answers the existence query,
        which is only made when adding a record that passes the local checks. */
    method HandleModPluginMessage(message: ModPluginMessage, existence: ExistenceReply)
      modifies this`check, this`hasError, this`nameInvalid, this`nameInvalidMessage, this`typeInvalidMessage
      modifies this`callbacks, this`sent, this`queried
      ensures message == OtherMessage ==>
                && check == old(check) && hasError == old(hasError)
                && nameInvalid == old(nameInvalid) && nameInvalidMessage == old(nameInvalidMessage)
                && typeInvalidMessage == old(typeInvalidMessage)
                && callbacks == old(callbacks) && sent == old(sent) && queried == old(queried)
      ensures message == ModInvalid ==>
                && !check && hasError
                && nameInvalid == old(nameInvalid) && nameInvalidMessage == old(nameInvalidMessage)
                && typeInvalidMessage == old(typeInvalidMessage)
                && callbacks == old(callbacks) && sent == old(sent) && queried == old(queried)
      ensures message == ModValid ==>
                var v := LocalVerdict(add, mod, parametersValid);
                && !check
                && (hasError <==> Flagged(add, mod, parametersValid, existence))
                && callbacks == old(callbacks) + (if Accepted(add, mod, parametersValid, existence) then [Confirmed(mod)] else [])
                && queried == old(queried) + (if v == CheckExistence then [mod.name] else [])
                && sent == old(sent) + (if v == CheckExistence && existence == OtherFailure then [ErrorApiConnect] else [])
                && (v == MissingName ==> nameInvalid && nameInvalidMessage == Some(NameMandatory) && !typeInvalidMessage)
                && (v == MissingType ==> !nameInvalid && nameInvalidMessage.None? && typeInvalidMessage)
                && (v == CheckExistence && existence == Found ==>
                      nameInvalid && nameInvalidMessage == Some(NameExists) && !typeInvalidMessage)
                && (!Flagged(add, mod, parametersValid, existence) ==>
                      nameInvalid == old(nameInvalid) && nameInvalidMessage == old(nameInvalidMessage)
                      && typeInvalidMessage == old(typeInvalidMessage))
    {
      match message {
        case ModValid =>
          check, hasError := false, false;
          if add && mod.name == "" {
            nameInvalid, nameInvalidMessage, typeInvalidMessage, hasError := true, Some(NameMandatory), false, true;
          } else if mod.moduleName == "" {
            nameInvalid, nameInvalidMessage, typeInvalidMessage, hasError := false, None, true, true;
          } else if parametersValid {
            if add {
              queried := queried + [mod.name];
              match existence {
                case Found =>
                  nameInvalid, nameInvalidMessage, typeInvalidMessage, hasError := true, Some(NameExists), false, true;
                case NotFound =>
                  callbacks := callbacks + [Confirmed(mod)];
                case OtherFailure =>
                  sent := sent + [ErrorApiConnect];
              }
            } else {
              callbacks := callbacks + [Confirmed(mod)];
            }
          }
        case ModInvalid =>
          check, hasError := false, true;
        case OtherMessage =>
      }
    }

    /** `closeModal`: confirming asks the parameters editor to validate, which
        ends in a "ModPlugin" message; cancelling reports to the parent. */
    method CloseModal(result: bool)
      modifies this`check, this`callbacks
      ensures hasCallback && result ==> check && callbacks == old(callbacks)
      ensures hasCallback && !result ==> check == old(check) && callbacks == old(callbacks) + [Cancelled]
      ensures !hasCallback ==> check == old(check) && callbacks == old(callbacks)
    {
      if hasCallback {
        if result {
          check := true;
        } else {
          callbacks := callbacks + [Cancelled];
        }
      }
    }

    /** `changeName`. */
    method ChangeName(value: string)
      modifies this`mod
      ensures mod == old(mod).(name := value)
    {
      mod := mod.(name := value);
    }

    /** `changeDisplayName`. */
    method ChangeDisplayName(value: string)
      modifies this`mod
      ensures mod == old(mod).(displayName := value)
    {
      mod := mod.(displayName := value);
    }

    /** `changeType`. */
    method ChangeType(value: string)
      modifies this`mod
      ensures mod == old(mod).(moduleName := value)
    {
      mod := mod.(moduleName := value);
    }

    /** `changeParameters`: the parameters editor hands over new parameters and
        whether they are valid. */
    method ChangeParameters(parameters: Json, valid: bool)
      modifies this`mod, this`parametersValid
      ensures mod == old(mod).(parameters := parameters)
      ensures parametersValid == valid
    {
      mod := mod.(parameters := parameters);
      parametersValid := valid;
    }

    /** The `onload` handler of `getImportPlugin`; `parsed` is the outcome of
        reading and parsing the file. */
    method GetImportPlugin(parsed: Option<Plugin>)
      modifies this`mod, this`sent
      ensures parsed.None? ==> mod == old(mod) && sent == old(sent) + [ImportError]
      ensures parsed.Some? ==> mod == MergeImport(add, old(mod), parsed.value) && sent == old(sent)
    {
      if parsed.Some? {
        mod := MergeImport(add, mod, parsed.value);
      } else {
        sent := sent + [ImportError];
      }
    }

    /** `componentWillReceiveProps`: new props reset the errors; `check` is
        left as it is. */
    method ReceiveProps(next: Plugin, adding: bool, callbackGiven: bool)
      modifies this`mod, this`add, this`hasCallback, this`parametersValid, this`nameInvalid
      modifies this`nameInvalidMessage, this`typeInvalidMessage, this`hasError
      ensures mod == next && add == adding && hasCallback == callbackGiven
      ensures parametersValid && !nameInvalid && nameInvalidMessage.None? && !typeInvalidMessage && !hasError
    {
      mod, add, hasCallback := next, adding, callbackGiven;
      parametersValid, nameInvalid, nameInvalidMessage, typeInvalidMessage, hasError := true, false, None, false, false;
    }
  }
}
