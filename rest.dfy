/** The part of a RestSharp request that the client fills in: resource path, verb and parameters. */
module Rest {

  datatype HttpMethod = GET | POST

  /** `AddParameter` adds a form (or query, for GET) parameter; `AddQueryParameter` always a query one. */
  datatype ParameterKind = GetOrPost | QueryString

  datatype Parameter = Parameter(kind: ParameterKind, name: string, value: string)

  /** What a request holds once built: the value handed to the transport. */
  datatype RequestData = RequestData(resource: string, httpMethod: HttpMethod, parameters: seq<Parameter>)

  /** `RestRequest`, reduced to the state the modelled code changes. */
  class RestRequest {
    var resource: string
    var httpMethod: HttpMethod
    var parameters: seq<Parameter>

    constructor (resource: string, httpMethod: HttpMethod)
      ensures this.resource == resource && this.httpMethod == httpMethod && parameters == []
    {
      this.resource := resource;
      this.httpMethod := httpMethod;
      parameters := [];
    }

    function Data(): (d: RequestData)
      reads this
    {
      RequestData(resource, httpMethod, parameters)
    }

    method AddParameter(name: string, value: string)
      modifies this
      ensures resource == old(resource) && httpMethod == old(httpMethod)
      ensures parameters == old(parameters) + [Parameter(GetOrPost, name, value)]
    {
      parameters := parameters + [Parameter(GetOrPost, name, value)];
    }

    method AddQueryParameter(name: string, value: string)
      modifies this
      ensures resource == old(resource) && httpMethod == old(httpMethod)
      ensures parameters == old(parameters) + [Parameter(QueryString, name, value)]
    {
      parameters := parameters + [Parameter(QueryString, name, value)];
    }
  }
}
