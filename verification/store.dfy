/** The database the handlers work on: each Mongoose collection is a map
    from document id to document. */
module Store {
  import opened Base
  import opened UserModel
  import opened ProductModel
  import opened CategoryModel
  import opened CartModel
  import opened OrderModel
  import opened ReviewModel

  datatype Db = Db(
    users: map<Id, User>,
    products: map<Id, Product>,
    categories: map<Id, Category>,
    carts: map<Id, Cart>,
    orders: map<Id, Order>,
    reviews: map<Id, Review>)

  /** What a handler leaves behind: the reply it sends and the database
      after every write it performed. */
  datatype Step<T> = Step(reply: Reply<T>, db: Db)

  /** The 201/200 reply and the 4xx/5xx reply, with the database they leave. */
  function Done<T>(code: int, value: T, db: Db): Step<T> {
    Step(Ok(code, value), db)
  }

  function Refuse<T>(code: int, message: string, db: Db): Step<T> {
    Step(Fail(code, message), db)
  }

  /** The generic `catch` branch: a rejected save surfaces as status 500. */
  const ServerError := 500
}
