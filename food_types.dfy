/** The enumeration of food types shared by the list, create and update handlers. */
module FoodTypes {
  import opened Wrappers

  /** The `type` enumeration of a food item. */
  datatype FoodType = Aliment | Plat | Dessert | Boisson | Hippo {
    function Name(): string {
      match this
      case Aliment => "aliment"
      case Plat => "plat"
      case Dessert => "dessert"
      case Boisson => "boisson"
      case Hippo => "hippo"
    }
  }

  /** `allowedTypes`. */
  const AllowedTypes: set<string> := {"aliment", "plat", "dessert", "boisson", "hippo"}

  /** The enumeration member a type name denotes, if it is one of the allowed names. */
  function ParseFoodType(s: string): (r: Option<FoodType>)
    ensures r.Some? <==> s in AllowedTypes
    ensures r.Some? ==> r.value.Name() == s
  {
    if s == "aliment" then Some(Aliment)
    else if s == "plat" then Some(Plat)
    else if s == "dessert" then Some(Dessert)
    else if s == "boisson" then Some(Boisson)
    else if s == "hippo" then Some(Hippo)
    else None
  }

  /** Every member's name is allowed and denotes that member. */
  lemma FoodTypeRoundTrip(t: FoodType)
    ensures t.Name() in AllowedTypes && ParseFoodType(t.Name()) == Some(t)
  {
  }
}
