/** Configuration validation (config.py). The YAML file is read elsewhere;
    here the parsed document is a map from keys to values. */
module Config {
  import opened Wrappers

  /** A value of the parsed YAML document. */
  datatype ConfigValue =
    | Str(s: string)
    | Int(i: int)
    | Bool(b: bool)
    | Float(r: real)
    | Null
    | List(items: seq<ConfigValue>)
    | Mapping(entries: map<string, ConfigValue>)

  type ConfigMap = map<string, ConfigValue>

  /** The keys `validate_config` insists on, in the order it checks them. */
  const RequiredKeys: seq<string> := ["moderator_model", "ollama_host", "save_path", "available_models"]

  /** The outcome of `validate_config`: it returns normally or raises
      ValueError with a message. */
  datatype Validation = Valid | Invalid(message: string)

  function MissingKeyMessage(key: string): string {
    "Missing required configuration key: " + key
  }

  const SavePathMessage: string := "save_path must be a string"

  /** The index of the first key of `keys[i..]` absent from `config`. */
  function FirstMissingFrom(keys: seq<string>, config: ConfigMap, i: nat): (r: Option<nat>)
    requires i <= |keys|
    ensures r.Some? ==> i <= r.value < |keys| && keys[r.value] !in config
    ensures r.Some? ==> forall j :: i <= j < r.value ==> keys[j] in config
    ensures r.None? ==> forall j :: i <= j < |keys| ==> keys[j] in config
    decreases |keys| - i
  {
    if i == |keys| then None
    else if keys[i] !in config then Some(i)
    else FirstMissingFrom(keys, config, i + 1)
  }

  /** Every required key is present. */
  predicate HasRequiredKeys(config: ConfigMap) {
    forall k :: k in RequiredKeys ==> k in config
  }

  /** `validate_config`: the first missing required key, in the listed order,
      is reported; only when none is missing is `save_path` checked to be a
      string. */
  function ValidateConfig(config: ConfigMap): (r: Validation)
    ensures r.Valid? <==> HasRequiredKeys(config) && config["save_path"].Str?
    ensures forall i :: 0 <= i < |RequiredKeys| ==>
              (RequiredKeys[i] !in config && (forall j :: 0 <= j < i ==> RequiredKeys[j] in config)
               ==> r == Invalid(MissingKeyMessage(RequiredKeys[i])))
    ensures HasRequiredKeys(config) && !config["save_path"].Str? ==> r == Invalid(SavePathMessage)
  {
    match FirstMissingFrom(RequiredKeys, config, 0)
    case Some(i) => Invalid(MissingKeyMessage(RequiredKeys[i]))
    case None =>
      if !config["save_path"].Str? then Invalid(SavePathMessage) else Valid
  }

  /** Keys outside the required four never change the verdict. */
  lemma ExtraKeysIgnored(config: ConfigMap, extra: ConfigMap)
    requires forall k :: k in extra ==> k !in RequiredKeys
    ensures ValidateConfig(config + extra) == ValidateConfig(config)
  {
    var merged := config + extra;
    forall k | k in RequiredKeys
      ensures (k in merged <==> k in config) && (k in config ==> merged[k] == config[k])
    {
    }
    assert FirstMissingFrom(RequiredKeys, merged, 0) == FirstMissingFrom(RequiredKeys, config, 0) by {
      FirstMissingAgrees(RequiredKeys, merged, config, 0);
    }
  }

  lemma {:induction false} FirstMissingAgrees(keys: seq<string>, a: ConfigMap, b: ConfigMap, i: nat)
    requires i <= |keys|
    requires forall j :: i <= j < |keys| ==> (keys[j] in a <==> keys[j] in b)
    ensures FirstMissingFrom(keys, a, i) == FirstMissingFrom(keys, b, i)
    decreases |keys| - i
  {
    if i < |keys| {
      FirstMissingAgrees(keys, a, b, i + 1);
    }
  }

  /** `load_config` once the file has been parsed: the document is returned
      unchanged when it validates, otherwise the validation error is raised. */
  function LoadConfig(parsed: ConfigMap): (r: Result<ConfigMap, string>)
    ensures r.Success? <==> HasRequiredKeys(parsed) && parsed["save_path"].Str?
    ensures r.Success? ==> r.value == parsed
    ensures r.Failure? ==> r.error == ValidateConfig(parsed).message
  {
    match ValidateConfig(parsed)
    case Valid => Success(parsed)
    case Invalid(msg) => Failure(msg)
  }
}
