/** How narrowly a candidate file applies to clients, and the client
    metadata it is matched against. `Bcfg2.Server.Plugin`, which defines
    them, is not part of this model: `Matches` follows the documented
    contract (everyone / members of the group / the one host). */
module Specificity {

  /** A file for every client, for the members of a group (with the
      priority read from `.Gnn_`), or for one host. */
  datatype Specificity = All | Group(group: string, prio: int) | Host(hostname: string)

  /** The part of a client's metadata the core reads. */
  datatype Metadata = Metadata(hostname: string, groups: set<string>)

  /** `Specificity.matches(metadata)`. */
  predicate Matches(s: Specificity, md: Metadata) {
    match s
    case All => true
    case Group(g, _) => g in md.groups
    case Host(h) => h == md.hostname
  }
}
