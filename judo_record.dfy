/**
 * One entry of the Judo shell's history: the interpreter it saved, the name of
 * the save point and the action that led to it.
 */
module JudoRecord {
  import opened Wrappers
  import opened Engine
  import opened Interpreting

  datatype Record = Record(env: Machine, name: string, action: string)

  /** `str(action)`: a missing action is kept as the text `None`. */
  function ActionText(action: Option<string>): (s: string)
    ensures action.None? ==> s == "None"
    ensures action.Some? ==> s == action.value
  {
    match action
    case None => "None"
    case Some(a) => a
  }

  /** `Record(env, name, action)`: both texts are stored as strings. */
  function NewRecord(env: Machine, name: string, action: Option<string>): (r: Record)
    ensures r.env == env && r.name == name
    ensures action.Some? ==> r.action == action.value
    ensures action.None? ==> r.action == "None"
  {
    Record(env, name, ActionText(action))
  }

  /** A record made without an action cannot be told from one made with the action
      text `None`. */
  lemma MissingActionIsNoneText(env: Machine, name: string)
    ensures NewRecord(env, name, None) == NewRecord(env, name, Some("None"))
    ensures NewRecord(env, name, None).action != ""
  {
  }

  /** `__eq__`: equal interpreters, names and actions. */
  predicate Equals(a: Record, b: Record) {
    SameMachine(a.env, b.env) && a.name == b.name && a.action == b.action
  }

  lemma EqualsIsEquivalence(a: Record, b: Record, c: Record)
    ensures Equals(a, a)
    ensures Equals(a, b) ==> Equals(b, a)
    ensures Equals(a, b) && Equals(b, c) ==> Equals(a, c)
  {
    SameMachineIsEquivalence(a.env, b.env, c.env);
  }

  /** Records are equal exactly when their names and actions agree and their
      interpreters are equal. */
  lemma EqualsIff(a: Record, b: Record)
    ensures Equals(a, b) <==> (a.name == b.name && a.action == b.action && SameMachine(a.env, b.env))
    ensures a == b ==> Equals(a, b)
  {
    SameMachineIsEquivalence(a.env, b.env, b.env);
  }

  /** `text()`, given the interpreter's own state text. The action is always a
      string, so its line is always present. */
  function Text(r: Record, envText: string): (s: string)
    ensures |s| == 5 + |r.name| + 1 + 7 + |r.action| + 1 + |envText| + 1
  {
    "Name:" + r.name + "\n" + "Action:" + r.action + "\n" + envText + "\n"
  }

  /** The text starts with the name line, follows it with the action line, and ends
      with the interpreter's text and a newline. */
  lemma TextLayout(r: Record, envText: string)
    ensures var s, n, a := Text(r, envText), |r.name|, |r.action|;
            && s[..5] == "Name:" && s[5..5 + n] == r.name && s[5 + n] == '\n'
            && s[6 + n..13 + n] == "Action:" && s[13 + n..13 + n + a] == r.action
            && s[13 + n + a] == '\n' && s[14 + n + a..|s| - 1] == envText && s[|s| - 1] == '\n'
  {
  }

  /** A value of the dictionary `json()` returns: a text, or the interpreter's own
      json form (kept here as the interpreter value). */
  datatype JsonValue = JText(text: string) | JEnv(m: Machine)

  /** `json()`: exactly the keys `name`, `action` and `env`. */
  function Json(r: Record): (j: map<string, JsonValue>)
    ensures j.Keys == {"name", "action", "env"}
    ensures j["name"] == JText(r.name) && j["action"] == JText(r.action) && j["env"] == JEnv(r.env)
  {
    map["name" := JText(r.name), "action" := JText(r.action), "env" := JEnv(r.env)]
  }

  /** `Record(**d)`: an unknown key, or a missing `name` or `env`, is a
      `TypeError`; a missing `action` is the default `None`. A name or action that
      is an interpreter would be turned into that object's default text, and an env
      that is text would be kept as text; neither is modelled. */
  function FromJson(j: map<string, JsonValue>): (r: Result<Record>)
    ensures !(j.Keys <= {"name", "action", "env"} && "name" in j && "env" in j) ==> r == Err(TypeError)
    ensures r.Ok? <==> (j.Keys <= {"name", "action", "env"} && "name" in j && "env" in j
                         && j["name"].JText? && j["env"].JEnv? && ("action" in j ==> j["action"].JText?))
    ensures r.Ok? ==> r.value == NewRecord(j["env"].m, j["name"].text, if "action" in j then Some(j["action"].text) else None)
  {
    if !(j.Keys <= {"name", "action", "env"} && "name" in j && "env" in j) then Err(TypeError)
    else if j["name"].JText? && j["env"].JEnv? && ("action" in j ==> j["action"].JText?) then
      Ok(NewRecord(j["env"].m, j["name"].text, if "action" in j then Some(j["action"].text) else None))
    else Err(Unmodelled("str"))
  }

  /** A record written to json and read back is the same record. */
  lemma JsonRoundTrip(r: Record)
    ensures FromJson(Json(r)) == Ok(r)
  {
  }

  /** A dict without `action` reads back with the action `None`. */
  lemma MissingActionLoadsAsNone(env: Machine, name: string)
    ensures FromJson(map["name" := JText(name), "env" := JEnv(env)]) == Ok(Record(env, name, "None"))
  {
    assert map["name" := JText(name), "env" := JEnv(env)].Keys == {"name", "env"};
  }

  /** A dict with any key besides `name`, `action` and `env` is refused. */
  lemma ExtraKeyRefused(r: Record, k: string, v: JsonValue)
    requires k != "name" && k != "action" && k != "env"
    ensures FromJson(Json(r)[k := v]) == Err(TypeError)
  {
    assert k in Json(r)[k := v].Keys;
  }
}
