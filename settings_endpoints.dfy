/** The status query: a projection of the settings for the front end. */
module SettingsEndpoints {
  import opened Models

  /** The status record; `Timestamp` is the clock reading passed in. */
  datatype AuthPocStatusResponse = AuthPocStatusResponse(
    AuthMode: string, IsDrMode: bool, DrMaxTtlMinutes: int, Environment: string,
    MaintenanceMode: bool, ApiVersion: string, Timestamp: int)

  /** `GetStatus`: the mode as configured, its DR test, and the other settings copied. */
  function GetStatus(settings: AuthPocSettings, now: int): (r: AuthPocStatusResponse)
    ensures r.IsDrMode <==> IsDrMode(r.AuthMode)
    ensures r.AuthMode == settings.AuthMode && r.DrMaxTtlMinutes == settings.DrMaxTtlMinutes
    ensures r.Environment == settings.Environment && r.MaintenanceMode == settings.MaintenanceMode
    ensures r.ApiVersion == settings.ApiVersion
  {
    AuthPocStatusResponse(
      settings.AuthMode, IsDrMode(settings.AuthMode), settings.DrMaxTtlMinutes,
      settings.Environment, settings.MaintenanceMode, settings.ApiVersion, now)
  }

  /** The status keeps the configured spelling of the mode: "DR" is reported as "DR", and as DR mode. */
  lemma StatusKeepsModeSpelling(settings: AuthPocSettings, now: int)
    requires settings.AuthMode == "DR"
    ensures GetStatus(settings, now).AuthMode == "DR" && GetStatus(settings, now).IsDrMode
  {
    IsDrModeSpellings("DR");
  }
}
