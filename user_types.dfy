/**
 * The profile record and the sort mode (src/types/User.ts). Only the
 * fields the core reads are kept: the local `id`, `login.uuid`,
 * `name.first`, `name.last` and `location.country`.
 */
module UserTypes {

  datatype Option<T> = None | Some(value: T)

  /** One generated identity: `id`, `login.uuid`, `name.first`, `name.last`, `location.country`. */
  datatype User = User(id: string, uuid: string, first: string, last: string, country: string)

  /** `'nameAsc' | 'nameDesc' | 'countryAsc' | 'countryDesc'` */
  datatype SortOption = NameAsc | NameDesc | CountryAsc | CountryDesc
}
