/** Choice of the analysis parameters (sample rate, window size, hop size) in get_file_bpm. */
module AnalysisProfile {
  import opened Errors

  /** The parameters handed to the beat detector. */
  datatype Profile = Profile(samplerate: int, winS: int, hopS: int)

  /** The caller's options: each attribute may be absent. Absent everywhere is the `params=None` default. */
  datatype Params = Params(mode: Option<string>, samplerate: Option<int>, winS: Option<int>, hopS: Option<int>)

  const NoParams := Params(None, None, None, None)

  const DefaultProfile := Profile(44100, 1024, 512)
  const FastProfile := Profile(8000, 512, 128)
  const SuperFastProfile := Profile(4000, 128, 64)

  /** The profile a mode selects before the explicit overrides are applied. */
  function ModeProfile(mode: Option<string>): (r: Result<Profile>)
    ensures r.Err? <==> mode.Some? && mode.value != "super-fast" && mode.value != "fast" && mode.value != "default"
  {
    match mode
    case None => Ok(DefaultProfile)
    case Some(m) =>
      if m == "super-fast" then Ok(SuperFastProfile)
      else if m == "fast" then Ok(FastProfile)
      else if m == "default" then Ok(DefaultProfile)
      else Err(ValueError("unknown mode " + m))
  }

  /** The parameters get_file_bpm hands to the detector, or the ValueError of an unknown mode. */
  function Resolve(params: Params): (r: Result<Profile>)
    // the mode table
    ensures params.mode == None ==> (r.Ok? && r.value.samplerate == params.samplerate.GetOr(44100)
                                   && r.value.winS == params.winS.GetOr(1024) && r.value.hopS == params.hopS.GetOr(512))
    ensures params.mode == Some("default") ==> (r.Ok? && r.value.samplerate == params.samplerate.GetOr(44100)
                                   && r.value.winS == params.winS.GetOr(1024) && r.value.hopS == params.hopS.GetOr(512))
    ensures params.mode == Some("fast") ==> (r.Ok? && r.value.samplerate == params.samplerate.GetOr(8000)
                                   && r.value.winS == params.winS.GetOr(512) && r.value.hopS == params.hopS.GetOr(128))
    ensures params.mode == Some("super-fast") ==> (r.Ok? && r.value.samplerate == params.samplerate.GetOr(4000)
                                   && r.value.winS == params.winS.GetOr(128) && r.value.hopS == params.hopS.GetOr(64))
    // any other mode is an error, whatever the overrides say
    ensures r.Err? <==> params.mode.Some? && params.mode.value !in {"super-fast", "fast", "default"}
    ensures r.Err? ==> r.error == ValueError("unknown mode " + params.mode.value)
    // an explicit field always wins over the mode
    ensures r.Ok? && params.samplerate.Some? ==> r.value.samplerate == params.samplerate.value
    ensures r.Ok? && params.winS.Some? ==> r.value.winS == params.winS.value
    ensures r.Ok? && params.hopS.Some? ==> r.value.hopS == params.hopS.value
  {
    match ModeProfile(params.mode)
    case Err(e) => Err(e)
    case Ok(base) =>
      var samplerate := if params.samplerate.Some? then params.samplerate.value else base.samplerate;
      var winS := if params.winS.Some? then params.winS.value else base.winS;
      var hopS := if params.hopS.Some? then params.hopS.value else base.hopS;
      Ok(Profile(samplerate, winS, hopS))
  }

  /** With no options at all the detector runs with (44100, 1024, 512). */
  lemma NoOptionsGiveDefault()
    ensures Resolve(NoParams) == Ok(DefaultProfile)
  {
  }

  /** An override touches its own component only: two option sets that differ in the sample rate alone
      resolve to the same window and hop sizes, and fail or succeed together. */
  lemma SamplerateOverrideIsLocal(p: Params, x: Option<int>)
    ensures Resolve(p).Ok? <==> Resolve(p.(samplerate := x)).Ok?
    ensures Resolve(p).Ok? ==> (Resolve(p).value.winS == Resolve(p.(samplerate := x)).value.winS
                            && Resolve(p).value.hopS == Resolve(p.(samplerate := x)).value.hopS)
  {
  }

  lemma WinSizeOverrideIsLocal(p: Params, x: Option<int>)
    ensures Resolve(p).Ok? <==> Resolve(p.(winS := x)).Ok?
    ensures Resolve(p).Ok? ==> (Resolve(p).value.samplerate == Resolve(p.(winS := x)).value.samplerate
                            && Resolve(p).value.hopS == Resolve(p.(winS := x)).value.hopS)
  {
  }

  lemma HopSizeOverrideIsLocal(p: Params, x: Option<int>)
    ensures Resolve(p).Ok? <==> Resolve(p.(hopS := x)).Ok?
    ensures Resolve(p).Ok? ==> (Resolve(p).value.samplerate == Resolve(p.(hopS := x)).value.samplerate
                            && Resolve(p).value.winS == Resolve(p.(hopS := x)).value.winS)
  {
  }
}
