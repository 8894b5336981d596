/** The records the remote API returns, reduced to the fields the screens read. */
module Records {

  /** A character: its stable id and the text fields the search box looks at. */
  datatype Character = Character(
    id: int,
    name: string,
    status: string,
    species: string,
    gender: string,
    locationName: string)

  /** An episode: its id, its name and its air date. */
  datatype Episode = Episode(id: int, name: string, airDate: string)
}
