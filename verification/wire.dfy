/** The records that cross the wire between the search endpoint and the
    browser: the customer projection (`CustomerDto` on the server, the
    `Customer` interface in the front end) and the search response. */
module Wire {

  /** One customer as the endpoint returns it: tags reduced to their names. */
  datatype CustomerDto = CustomerDto(id: int, name: string, address: string, postcode: string, tags: seq<string>)

  /** A page of customers plus the number of all matches before truncation. */
  datatype SearchResponse = SearchResponse(customers: seq<CustomerDto>, totalCount: int)

  /** The response both sides return for a query too short to search. */
  const EmptyResponse := SearchResponse([], 0)
}
