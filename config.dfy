/** The constants of the application configuration that the core uses. */
module Config {

  /** `SIGPROP_TYPES`: the five significant-property types, in the order new
      entries are appended. */
  const SigPropTypes: seq<string> := ["content", "context", "appearance", "behavior", "structure"]

  /** `SIGPROP_PREMIS_SIGNIFICANT_PROPERTY_PARENT`: the element new entries are
      appended to; the same name the loader looks up under the root. */
  const SigPropParent: string := "object"
}
