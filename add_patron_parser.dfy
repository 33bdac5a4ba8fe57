/**
 * AddPatronCommandParser: turns a tokenised argument map into an add-patron
 * command. The tokenizer and the field parsers of ParserUtil are not part of
 * this model: the map is given, and the field parsers are parameters.
 */
module AddPatronParser {
  import opened Wrappers
  import opened Person

  /** The prefixes the add-patron command is tokenised with. */
  datatype Prefix = PrefixName | PrefixPhone | PrefixEmail | PrefixId | PrefixTag

  /** ArgumentMultimap: every value each prefix was given, in input order, and the preamble. */
  datatype ArgumentMultimap = ArgumentMultimap(values: map<Prefix, seq<string>>, preamble: string) {

    /** getValue: the last value given for the prefix, if any. */
    function GetValue(prefix: Prefix): Option<string> {
      if prefix in values && |values[prefix]| > 0 then Some(values[prefix][|values[prefix]| - 1]) else None
    }

    /** getAllValues: every value given for the prefix, none if it never occurred. */
    function GetAllValues(prefix: Prefix): seq<string> {
      if prefix in values then values[prefix] else []
    }
  }

  /** ParserUtil's field parsers, each failing with its type's constraint message. */
  datatype FieldParsers = FieldParsers(
    parseName: string -> Result<Name, string>,
    parsePhone: string -> Result<Phone, string>,
    parseEmail: string -> Result<Email, string>,
    parseId: string -> Result<Id, string>,
    parseTags: seq<string> -> Result<set<Tag>, string>)

  datatype ParseError =
    | InvalidCommandFormat            // MESSAGE_INVALID_COMMAND_FORMAT with the command's usage
    | ConstraintViolation(message: string)

  datatype AddPatronCommand = AddPatronCommand(toAdd: Patron)

  /** The prefixes add-patron cannot do without, in the order the source lists them. */
  const RequiredPrefixes: seq<Prefix> := [PrefixName, PrefixId, PrefixPhone, PrefixEmail]

  /** arePrefixesPresent: every listed prefix has a value in the map. */
  function ArePrefixesPresent(argumentMultimap: ArgumentMultimap, prefixes: seq<Prefix>): (present: bool)
    ensures present <==> forall k :: 0 <= k < |prefixes| ==> argumentMultimap.GetValue(prefixes[k]).Some?
  {
    if prefixes == [] then true
    else argumentMultimap.GetValue(prefixes[0]).Some? && ArePrefixesPresent(argumentMultimap, prefixes[1..])
  }

  /**
   * parse: the command-format error when a required prefix has no value or
   * the preamble is not empty; otherwise name, phone, email, id and tags are
   * parsed in that order, the first failure aborting, and the command adds
   * the patron built from exactly the parsed values.
   */
  function Parse(fp: FieldParsers, argMultimap: ArgumentMultimap): (r: Result<AddPatronCommand, ParseError>)
    ensures r == Failure(InvalidCommandFormat) <==>
      !ArePrefixesPresent(argMultimap, RequiredPrefixes) || argMultimap.preamble != ""
  {
    if !ArePrefixesPresent(argMultimap, RequiredPrefixes) || argMultimap.preamble != "" then
      Failure(InvalidCommandFormat)
    else
      assert RequiredPrefixes[0] == PrefixName && RequiredPrefixes[1] == PrefixId;
      assert RequiredPrefixes[2] == PrefixPhone && RequiredPrefixes[3] == PrefixEmail;
      var name := fp.parseName(argMultimap.GetValue(PrefixName).value);
      if name.Failure? then Failure(ConstraintViolation(name.error)) else
      var phone := fp.parsePhone(argMultimap.GetValue(PrefixPhone).value);
      if phone.Failure? then Failure(ConstraintViolation(phone.error)) else
      var email := fp.parseEmail(argMultimap.GetValue(PrefixEmail).value);
      if email.Failure? then Failure(ConstraintViolation(email.error)) else
      var id := fp.parseId(argMultimap.GetValue(PrefixId).value);
      if id.Failure? then Failure(ConstraintViolation(id.error)) else
      var tagList := fp.parseTags(argMultimap.GetAllValues(PrefixTag));
      if tagList.Failure? then Failure(ConstraintViolation(tagList.error)) else
      Success(AddPatronCommand(Patron(name.value, phone.value, email.value, id.value, tagList.value)))
  }

  /** Any one required prefix without a value makes parsing fail with the command-format error. */
  lemma MissingPrefixFails(fp: FieldParsers, m: ArgumentMultimap, p: Prefix)
    requires p in RequiredPrefixes && m.GetValue(p).None?
    ensures Parse(fp, m) == Failure(InvalidCommandFormat)
  {
    var k :| 0 <= k < |RequiredPrefixes| && RequiredPrefixes[k] == p;
  }

  /** A non-empty preamble fails with the same error even when every prefix is present. */
  lemma PreambleFails(fp: FieldParsers, m: ArgumentMultimap)
    requires m.preamble != ""
    ensures Parse(fp, m) == Failure(InvalidCommandFormat)
  {
  }

  /** The required prefixes are present exactly when name, phone, email and id each have a value. */
  lemma RequiredPresentIffEachGiven(m: ArgumentMultimap)
    ensures ArePrefixesPresent(m, RequiredPrefixes) <==>
      && m.GetValue(PrefixName).Some? && m.GetValue(PrefixPhone).Some?
      && m.GetValue(PrefixEmail).Some? && m.GetValue(PrefixId).Some?
  {
    assert RequiredPrefixes[0] == PrefixName && RequiredPrefixes[1] == PrefixId;
    assert RequiredPrefixes[2] == PrefixPhone && RequiredPrefixes[3] == PrefixEmail;
  }

  /** Well-formed arguments (every required prefix given, no preamble). */
  predicate WellFormed(m: ArgumentMultimap) {
    && m.GetValue(PrefixName).Some? && m.GetValue(PrefixPhone).Some?
    && m.GetValue(PrefixEmail).Some? && m.GetValue(PrefixId).Some?
    && m.preamble == ""
  }

  /**
   * On well-formed arguments the fields are parsed in the order name, phone,
   * email, id, tags, and the first parser that fails decides the error.
   */
  lemma FirstFieldFailureReported(fp: FieldParsers, m: ArgumentMultimap)
    requires WellFormed(m)
    ensures var name := fp.parseName(m.GetValue(PrefixName).value);
      var phone := fp.parsePhone(m.GetValue(PrefixPhone).value);
      var email := fp.parseEmail(m.GetValue(PrefixEmail).value);
      var id := fp.parseId(m.GetValue(PrefixId).value);
      var tags := fp.parseTags(m.GetAllValues(PrefixTag));
      && (name.Failure? ==> Parse(fp, m) == Failure(ConstraintViolation(name.error)))
      && (name.Success? && phone.Failure? ==> Parse(fp, m) == Failure(ConstraintViolation(phone.error)))
      && (name.Success? && phone.Success? && email.Failure? ==>
            Parse(fp, m) == Failure(ConstraintViolation(email.error)))
      && (name.Success? && phone.Success? && email.Success? && id.Failure? ==>
            Parse(fp, m) == Failure(ConstraintViolation(id.error)))
      && (name.Success? && phone.Success? && email.Success? && id.Success? && tags.Failure? ==>
            Parse(fp, m) == Failure(ConstraintViolation(tags.error)))
  {
    RequiredPresentIffEachGiven(m);
  }

  /** Parsing succeeds exactly on well-formed arguments whose five fields all parse, with exactly those values. */
  lemma ParsedPatron(fp: FieldParsers, m: ArgumentMultimap)
    ensures Parse(fp, m).Success? <==>
      && WellFormed(m)
      && fp.parseName(m.GetValue(PrefixName).value).Success?
      && fp.parsePhone(m.GetValue(PrefixPhone).value).Success?
      && fp.parseEmail(m.GetValue(PrefixEmail).value).Success?
      && fp.parseId(m.GetValue(PrefixId).value).Success?
      && fp.parseTags(m.GetAllValues(PrefixTag)).Success?
    ensures Parse(fp, m).Success? ==>
      Parse(fp, m).value.toAdd == Patron(
        fp.parseName(m.GetValue(PrefixName).value).value,
        fp.parsePhone(m.GetValue(PrefixPhone).value).value,
        fp.parseEmail(m.GetValue(PrefixEmail).value).value,
        fp.parseId(m.GetValue(PrefixId).value).value,
        fp.parseTags(m.GetAllValues(PrefixTag)).value)
  {
    RequiredPresentIffEachGiven(m);
  }

  /** The tag prefix is optional: without it, tag parsing is handed the empty list. */
  lemma TagPrefixOptional(fp: FieldParsers, m: ArgumentMultimap)
    requires PrefixTag !in m.values
    ensures m.GetAllValues(PrefixTag) == []
    ensures Parse(fp, m) == Parse(fp, m.(values := m.values[PrefixTag := []]))
  {
    var m' := m.(values := m.values[PrefixTag := []]);
    assert m'.GetValue(PrefixName) == m.GetValue(PrefixName);
    assert m'.GetValue(PrefixPhone) == m.GetValue(PrefixPhone);
    assert m'.GetValue(PrefixEmail) == m.GetValue(PrefixEmail);
    assert m'.GetValue(PrefixId) == m.GetValue(PrefixId);
    assert ArePrefixesPresent(m', RequiredPrefixes) == ArePrefixesPresent(m, RequiredPrefixes);
  }
}
