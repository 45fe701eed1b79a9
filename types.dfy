/** The interfaces the facade exposes to its callers. */
module Types {

  /** A language service built by the host's `createLanguageService`; opaque here. */
  datatype LanguageService = LanguageService(id: nat)

  /** Where a container's `languageService` comes from. */
  datatype ServiceOrigin =
    | HostCreated(service: LanguageService)  // the value the host's `createLanguageService(host)` returned
    | ProjectOwned                           // the language service of the project the container wraps

  /**
   * `ProjectContainer`: the language service and which of the optional members
   * `setPreferences`, `projectUpdated` and `dispose` are present.
   */
  datatype ProjectContainer = ProjectContainer(
    languageService: ServiceOrigin,
    hasSetPreferences: bool,
    hasProjectUpdated: bool,
    hasDispose: bool)
}
