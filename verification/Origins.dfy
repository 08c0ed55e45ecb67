/** The identity of an origin server, shared by the request pipeline and the load balancer. */
module Origins {

  /** Ids are compared as `localeCompare` orders them. */
  type OriginId = nat
}
