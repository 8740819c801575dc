/** The shape of a parsed utterance: the dictionary with the keys
    "type", "item", "category" and "amount" that every parser returns. */
module Records {

  /** The transaction type; `Name()` is the string stored under "type". */
  datatype Kind = Expense | Income {
    function Name(): string {
      match this
      case Expense => "expense"
      case Income => "income"
    }
  }

  /** The category tag; `Name()` is the string stored under "category". */
  datatype Category = Food | Transport | Housing | Entertainment | Earnings | Other {
    function Name(): string {
      match this
      case Food => "food"
      case Transport => "transport"
      case Housing => "housing"
      case Entertainment => "entertainment"
      case Earnings => "income"
      case Other => "other"
    }
  }

  /** A parsed utterance. The amount is exact: the float rounding of the
      source is not modelled. */
  datatype Parsed = Parsed(kind: Kind, item: string, category: Category, amount: real)
}
