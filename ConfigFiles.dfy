/**
 * Choosing the configuration file of a boilerplate or an app
 * (`_load_boilerplate`, cmscloud_client/client.py:178-197, and `_load_app`,
 * cmscloud_client/client.py:243-262). Both look for a YAML and a JSON file
 * in the directory and accept exactly one of them. Parsing the chosen file
 * is not modelled.
 */
module ConfigFiles {
  import Text

  const BoilerplateJson := "boilerplate.json"
  const BoilerplateYaml := "boilerplate.yaml"
  const AppJson := "app.json"
  const AppYaml := "app.yaml"

  /** The file to load and whether it is JSON, or the message returned instead. */
  datatype Selection = Chosen(file: string, json: bool) | Rejected(message: string)

  function OnlyOneMessage(jsonName: string, yamlName: string): string {
    "Please provide only one config file ('" + jsonName + "' or '" + yamlName + "')"
  }

  function NeitherMessage(jsonName: string, yamlName: string): string {
    "Neither file '" + jsonName + "' nor '" + yamlName + "' were found."
  }

  /**
   * The decision shared by both loaders, in the order the code takes it:
   * the YAML file is remembered if present; a JSON file is then taken only
   * when no YAML file was, and is an error otherwise; nothing remembered is
   * the other error.
   */
  function SelectConfig(jsonFile: string, yamlFile: string, jsonName: string, yamlName: string,
                        yamlExists: bool, jsonExists: bool): (r: Selection)
    ensures r.Chosen? <==> yamlExists != jsonExists
    ensures yamlExists && !jsonExists ==> r == Chosen(yamlFile, false)
    ensures jsonExists && !yamlExists ==> r == Chosen(jsonFile, true)
    ensures yamlExists && jsonExists ==> r == Rejected(OnlyOneMessage(jsonName, yamlName))
    ensures !yamlExists && !jsonExists ==> r == Rejected(NeitherMessage(jsonName, yamlName))
  {
    var remembered: string := if yamlExists then yamlFile else "";
    var found := yamlExists;
    if jsonExists then
      if !found then Chosen(jsonFile, true)
      else Rejected(OnlyOneMessage(jsonName, yamlName))
    else if !found then Rejected(NeitherMessage(jsonName, yamlName))
    else Chosen(remembered, false)
  }

  /** `_load_boilerplate(path)` when the paths in `existing` exist. */
  function LoadBoilerplate(path: string, existing: set<string>): (r: Selection)
    ensures var yaml := Text.PathJoin(path, BoilerplateYaml) in existing;
            var json := Text.PathJoin(path, BoilerplateJson) in existing;
      && (yaml && !json ==> r == Chosen(Text.PathJoin(path, BoilerplateYaml), false))
      && (json && !yaml ==> r == Chosen(Text.PathJoin(path, BoilerplateJson), true))
      && (yaml && json ==> r == Rejected(OnlyOneMessage(BoilerplateJson, BoilerplateYaml)))
      && (!yaml && !json ==> r == Rejected(NeitherMessage(BoilerplateJson, BoilerplateYaml)))
  {
    var jsonFile := Text.PathJoin(path, BoilerplateJson);
    var yamlFile := Text.PathJoin(path, BoilerplateYaml);
    SelectConfig(jsonFile, yamlFile, BoilerplateJson, BoilerplateYaml,
                 yamlFile in existing, jsonFile in existing)
  }

  /** `_load_app(path)` when the paths in `existing` exist. */
  function LoadApp(path: string, existing: set<string>): (r: Selection)
    ensures var yaml := Text.PathJoin(path, AppYaml) in existing;
            var json := Text.PathJoin(path, AppJson) in existing;
      && (yaml && !json ==> r == Chosen(Text.PathJoin(path, AppYaml), false))
      && (json && !yaml ==> r == Chosen(Text.PathJoin(path, AppJson), true))
      && (yaml && json ==> r == Rejected(OnlyOneMessage(AppJson, AppYaml)))
      && (!yaml && !json ==> r == Rejected(NeitherMessage(AppJson, AppYaml)))
  {
    var jsonFile := Text.PathJoin(path, AppJson);
    var yamlFile := Text.PathJoin(path, AppYaml);
    SelectConfig(jsonFile, yamlFile, AppJson, AppYaml, yamlFile in existing, jsonFile in existing)
  }
}
