/** The catalog object in front of the registry: one request, one locked region, one page. */
module CatalogStores {
  import opened Outcomes
  import opened Catalogs
  import Reads
  import Registries
  import RegistryStores
  import Searches

  class Catalog {
    const c: Config
    const registry: RegistryStores.CapabilityRegistry

    constructor (c: Config, registry: RegistryStores.CapabilityRegistry)
      ensures this.c == c && this.registry == registry
    {
      this.c, this.registry := c, registry;
    }

    /** `Catalog.Search`; `token` is the child cursor after its seal was checked, if there is one. */
    method Search(q: Request, token: Option<Token>) returns (r: Result<Page, CatalogError>)
      requires registry.Valid() && Registries.Inv(registry.view) && registry.OnTree()
      ensures r == Answer(c, registry.view, q, token)
    {
      hide RegistryStores.CapabilityRegistry.Valid, RegistryStores.CapabilityRegistry.OnTree, Registries.Inv, Catalogs.SearchAndBrowse;
      if q.childLimit < 0 || q.childLimit > Searches.LIMIT_MAX { return Err(ChildLimitInvalid); }
      var path := Searches.CleanPath(q.path);
      var offset, expected: Option<nat> := 0, None;
      if token.Some? {
        if token.value.Foreign? || token.value.cursor.path != path { return Err(CursorInvalid); }
        expected := Some(token.value.cursor.revision);
        offset := token.value.cursor.offset;
      }
      var found := registry.SearchAndBrowse(c.search, Searches.Request(q.query, path, q.limit), expected);
      if found.Err? { return Err(found.error); }
      var children := found.value.view.children;
      if offset > |children| { return Err(CursorInvalid); }
      var end := offset + q.childLimit;
      if end > |children| { end := |children|; }
      var next := None;
      if q.childLimit > 0 && end < |children| { next := Some(Sealed(Cursor(path, found.value.revision, end))); }
      var page := Page(found.value.results, found.value.view.path, children[offset..end], |children|, next);
      if c.encodedSize(page) > Reads.BROKER_RESPONSE_MAX { return Err(ServiceQuota); }
      r := Ok(page);
    }
  }
}
