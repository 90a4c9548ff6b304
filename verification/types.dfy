/** The resource as the web client receives it (web/src/types.ts): the JSON
    form of the server's `ResourceResponse`, with both instants in Unix
    seconds. */
module Types {

  datatype ResourceView = ResourceView(
    id: nat,
    name: string,
    group: string,
    expireAt: int,
    createdAt: int,
    remainingDays: int)
}
