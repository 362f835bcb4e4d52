/**
 * The sales record table the dashboard works on. Every record is one order
 * line, joined from the order, customer and product sheets before it reaches
 * the browser; the loader fixes the order date to the "YYYY-MM" form
 * (main.py:131).
 */
module Records {
  import opened Sequences

  /** One order line; `salesAmount` is kept in cents so that sums are exact. */
  datatype Record = Record(
    orderDate: string,
    customerName: string,
    country: string,
    loyaltyCard: string,
    coffeeType: string,
    roastType: string,
    size: string,
    salesAmount: nat)

  /** The string-valued columns a record is filtered or grouped by. `OrderYear` is derived from `orderDate`. */
  datatype Column = OrderDate | OrderYear | CustomerName | Country | LoyaltyCard | CoffeeType | RoastType | Size

  /**
   * `date.substring(0, 4)`: the first four characters, or the whole string
   * when it is shorter than that.
   */
  function YearOf(date: string): (year: string)
    ensures year <= date
    ensures |year| == Min(4, |date|)
  {
    if |date| < 4 then date else date[..4]
  }

  function Cell(r: Record, c: Column): string
  {
    match c
    case OrderDate => r.orderDate
    case OrderYear => YearOf(r.orderDate)
    case CustomerName => r.customerName
    case Country => r.country
    case LoyaltyCard => r.loyaltyCard
    case CoffeeType => r.coffeeType
    case RoastType => r.roastType
    case Size => r.size
  }

  predicate IsDigit(ch: char)
  {
    '0' <= ch <= '9'
  }

  /** The "YYYY-MM" form the loader writes into `orderDate`. */
  predicate IsMonthStamp(date: string)
  {
    |date| == 7 && date[4] == '-'
    && IsDigit(date[0]) && IsDigit(date[1]) && IsDigit(date[2]) && IsDigit(date[3])
    && IsDigit(date[5]) && IsDigit(date[6])
  }

  /** For a date in the loader's form the year column is exactly its four-digit year. */
  lemma YearOfMonthStamp(date: string)
    requires IsMonthStamp(date)
    ensures YearOf(date) == date[..4]
    ensures forall i :: 0 <= i < 4 ==> IsDigit(YearOf(date)[i])
  {
  }
}
