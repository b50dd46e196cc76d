/**
 * The `PlayerEntry` record of event_manager/upload_scores/models.py: three
 * required fields, `totalEntries` constrained to be at least zero, and a
 * name check that is defined on the class but never registered as a
 * validator, so construction does not run it.
 */
module Models {
  import opened Wrappers
  import opened PyStr

  datatype PlayerEntry = PlayerEntry(playerName: string, playerId: int, totalEntries: int)

  /** The field constraints that construction reports, one per violated field. */
  datatype FieldError =
    | NameMissing                          // playerName is required and was None
    | TotalEntriesBelowZero(value: int)    // totalEntries violates ge=0

  /**
   * Constructing a `PlayerEntry`: succeeds exactly when a name is given and
   * `totalEntries >= 0`; the fields then read back as given. A failure lists
   * each violated field once and nothing else, in field order (the name
   * first). The name is NOT checked for blankness.
   */
  function NewPlayerEntry(playerName: Option<string>, playerId: int, totalEntries: int)
    : (r: Result<PlayerEntry, seq<FieldError>>)
    ensures r.Success? <==> playerName.Some? && totalEntries >= 0
    ensures r.Success? ==>
      && r.value.playerName == playerName.value
      && r.value.playerId == playerId
      && r.value.totalEntries == totalEntries
    ensures r.Failure? ==>
      && |r.error| == (if playerName.None? then 1 else 0) + (if totalEntries < 0 then 1 else 0)
      && (forall e :: e in r.error ==> e == NameMissing || e == TotalEntriesBelowZero(totalEntries))
      && (NameMissing in r.error <==> playerName.None?)
      && (TotalEntriesBelowZero(totalEntries) in r.error <==> totalEntries < 0)
      && (playerName.None? ==> r.error[0] == NameMissing)
  {
    var errors :=
      (if playerName.None? then [NameMissing] else [])
      + (if totalEntries < 0 then [TotalEntriesBelowZero(totalEntries)] else []);
    if errors == [] then Success(PlayerEntry(playerName.value, playerId, totalEntries))
    else Failure(errors)
  }

  /**
   * `PlayerEntry.player_name_not_empty`: rejects a missing name and a name
   * made only of whitespace; otherwise hands its argument back unchanged.
   */
  function PlayerNameNotEmpty(v: Option<string>): (r: Result<string, string>)
    ensures r.Success? <==> v.Some? && exists i :: 0 <= i < |v.value| && !IsSpace(v.value[i])
    ensures r.Success? ==> r.value == v.value
    ensures r.Failure? ==> r.error == "playerName must not be empty."
  {
    if v.None? then Failure("playerName must not be empty.")
    else
      BlankIffAllSpace(v.value);
      if IsBlank(v.value) then Failure("playerName must not be empty.") else Success(v.value)
  }

  /**
   * The name check is not wired into construction: a blank name that the
   * check rejects still yields a `PlayerEntry`.
   */
  lemma BlankNameAccepted(name: string, playerId: int, totalEntries: int)
    requires totalEntries >= 0
    requires forall i :: 0 <= i < |name| ==> IsSpace(name[i])
    ensures PlayerNameNotEmpty(Some(name)).Failure?
    ensures NewPlayerEntry(Some(name), playerId, totalEntries) == Success(PlayerEntry(name, playerId, totalEntries))
  {
    BlankIffAllSpace(name);
  }
}
