/** The domain Pokemon record and the SOAP response types built from it. */
module PokemonModel {
  import opened Wrappers

  /** A domain ability; every field may be null. */
  datatype Ability = Ability(name: Option<string>, url: Option<string>, isHidden: Option<bool>, slot: Option<int>)

  /** A domain held item; every field may be null. */
  datatype HeldItem = HeldItem(name: Option<string>, url: Option<string>)

  /** The domain Pokemon; the two lists may be null as a whole. */
  datatype Pokemon = Pokemon(
    id: Option<int>,
    name: Option<string>,
    baseExperience: Option<int>,
    abilities: Option<seq<Ability>>,
    heldItems: Option<seq<HeldItem>>,
    locationAreaEncounters: Option<string>)

  /** The generated SOAP `Ability` element. */
  datatype SoapAbility = SoapAbility(name: Option<string>, url: Option<string>, isHidden: Option<bool>, slot: Option<int>)

  /** The generated SOAP `HeldItem` element. */
  datatype SoapHeldItem = SoapHeldItem(name: Option<string>, url: Option<string>)

  datatype AbilitiesResponse = AbilitiesResponse(abilities: seq<SoapAbility>)
  datatype HeldItemsResponse = HeldItemsResponse(heldItems: seq<SoapHeldItem>)
  datatype BaseExperienceResponse = BaseExperienceResponse(baseExperience: Option<int>)
  /** The SOAP id response; its `id` is a primitive `long`, so it cannot be null. */
  datatype IdResponse = IdResponse(id: int)
  datatype NameResponse = NameResponse(name: Option<string>)
  datatype LocationAreaEncountersResponse = LocationAreaEncountersResponse(locationAreaEncounters: Option<string>)
}
