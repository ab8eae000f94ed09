/** The `/settings` route of opsml/app/routes/settings.py: which storage
    system the server reports, decided from the configured `STORAGE_URI`
    and the `is_proxy` flag. */
module SettingsRoute {
  import opened Wrappers
  import Strings

  /** The fields of the application config the route reads. */
  datatype AppConfig = AppConfig(storageUri: string, isProxy: bool, version: string)

  /** `StorageSystem`, by member; its string values are not part of this model. */
  datatype StorageSystem = Local | Gcs | Api

  /** A `StorageSettingsResponse`; `None` is a field the route leaves at the
      response model's default. */
  datatype StorageSettingsResponse = StorageSettingsResponse(
    storageType: StorageSystem,
    storageUri: string,
    proxy: Option<bool>,
    version: Option<string>)

  /** The storage type the route reports: LOCAL unless a uri is configured;
      with a uri, API behind a proxy, else GCS for a `gs://` uri, else LOCAL. */
  function StorageType(config: AppConfig): (t: StorageSystem)
    ensures |config.storageUri| == 0 ==> t == Local
    ensures |config.storageUri| > 0 && config.isProxy ==> t == Api
    ensures |config.storageUri| > 0 && !config.isProxy && Strings.Contains(config.storageUri, "gs://") ==> t == Gcs
    ensures |config.storageUri| > 0 && !config.isProxy && !Strings.Contains(config.storageUri, "gs://") ==> t == Local
    ensures t == Gcs ==> !config.isProxy
  {
    var t0 := Local;
    var t1 := if |config.storageUri| > 0 && !config.isProxy && Strings.Contains(config.storageUri, "gs://") then Gcs else t0;
    if |config.storageUri| > 0 && config.isProxy then Api else t1
  }

  /** `get_storage_settings`: the decided type, and the config echoed. */
  function GetStorageSettings(config: AppConfig): (r: StorageSettingsResponse)
    ensures r.storageUri == config.storageUri && r.proxy == Some(config.isProxy) && r.version == Some(config.version)
    ensures r.storageType == StorageType(config)
  {
    StorageSettingsResponse(StorageType(config), config.storageUri, Some(config.isProxy), Some(config.version))
  }
}
